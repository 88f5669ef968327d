/** Differential inverse kinematics with one common saturation scale. Floating-point values are
    reals here, so the finiteness and DBL_MAX / DBL_TRUE_MIN tests always pass. */
module RobotKinematics {
  import opened Prelude

  datatype Side = LeftSide | RightSide

  datatype Motor = Motor(
    id: nat, side: Side, wheelRadius: real, ratio: real, directionSign: int, maxAbsRpm: real)

  datatype Differential = Differential(trackWidth: real, vyEpsilon: real)

  datatype BodyVelocity = BodyVelocity(vx: real, vy: real, wz: real)

  datatype MotorCommand = MotorCommand(id: nat, rpm: real)

  datatype Report = Report(scale: real, saturated: bool)

  datatype Error =
    | Ok
    | MotorCountZero
    | OutputCapacity
    | InvalidTrackWidth
    | InvalidVyEpsilon
    | UnsupportedLateralVelocity
    | InvalidWheelRadius
    | InvalidRatio
    | InvalidDirectionSign
    | InvalidMaxAbsRpm
    | DuplicateActuatorId
    | MissingLeftMotor
    | MissingRightMotor

  const RPM_PER_RADIAN_PER_SECOND: real := 60.0 / 6.283185307179586476925286766559005768

  // ------------------------------------------------------------------------------- validation

  predicate MotorValid(motor: Motor) {
    && motor.wheelRadius > 0.0
    && motor.ratio > 0.0
    && (motor.directionSign == -1 || motor.directionSign == 1)
    && motor.maxAbsRpm > 0.0
  }

  ghost predicate HasId(motors: seq<Motor>, id: nat) {
    exists i | 0 <= i < |motors| :: motors[i].id == id
  }

  ghost predicate HasSide(motors: seq<Motor>, side: Side) {
    exists i | 0 <= i < |motors| :: motors[i].side == side
  }

  ghost predicate DistinctIds(motors: seq<Motor>) {
    forall i, j | 0 <= i < j < |motors| :: motors[i].id != motors[j].id
  }

  /** What a motor list must satisfy for the inverse to accept it. */
  ghost predicate MotorsValid(motors: seq<Motor>) {
    && (forall i | 0 <= i < |motors| :: MotorValid(motors[i]))
    && DistinctIds(motors)
    && HasSide(motors, LeftSide) && HasSide(motors, RightSide)
  }

  /** The first complaint of the validation, in the order in which the motors and their fields are
      looked at. */
  ghost function FirstMotorError(motors: seq<Motor>): (e: Error)
    ensures e == Ok <==> (forall i | 0 <= i < |motors| :: MotorValid(motors[i])) && DistinctIds(motors)
  {
    if motors == [] then Ok
    else
      var before, motor := motors[..|motors| - 1], motors[|motors| - 1];
      var earlier := FirstMotorError(before);
      assert forall i | 0 <= i < |before| :: motors[i] == before[i];
      if earlier != Ok then earlier
      else if motor.wheelRadius <= 0.0 then InvalidWheelRadius
      else if motor.ratio <= 0.0 then InvalidRatio
      else if motor.directionSign != -1 && motor.directionSign != 1 then InvalidDirectionSign
      else if motor.maxAbsRpm <= 0.0 then InvalidMaxAbsRpm
      else if HasId(before, motor.id) then DuplicateActuatorId
      else Ok
  }

  /** The exact complaint is that of the shortest bad prefix. */
  lemma {:induction false} FirstErrorOfPrefix(motors: seq<Motor>, n: nat)
    requires n <= |motors| && FirstMotorError(motors[..n]) != Ok
    ensures FirstMotorError(motors) == FirstMotorError(motors[..n])
    decreases |motors|
  {
    if n == |motors| {
      assert motors[..n] == motors;
    } else {
      var before := motors[..|motors| - 1];
      assert before[..n] == motors[..n];
      FirstErrorOfPrefix(before, n);
    }
  }

  /** What can be said against motor n, taking the fields in their order and the other motors last. */
  ghost predicate Complains(motors: seq<Motor>, n: nat, complaint: Error)
    requires n < |motors|
  {
    var motor := motors[n]; var signed := motor.directionSign in {-1, 1};
    match complaint
    case InvalidWheelRadius => !(motor.wheelRadius > 0.0)
    case InvalidRatio => motor.wheelRadius > 0.0 && !(motor.ratio > 0.0)
    case InvalidDirectionSign => motor.wheelRadius > 0.0 && motor.ratio > 0.0 && !signed
    case InvalidMaxAbsRpm => motor.wheelRadius > 0.0 && motor.ratio > 0.0 && signed && !(motor.maxAbsRpm > 0.0)
    case DuplicateActuatorId => MotorValid(motor) && exists k | 0 <= k < n :: motors[k].id == motor.id
    case _ => false
  }

  lemma {:induction false} ComplaintOfNext(motors: seq<Motor>, n: nat, complaint: Error)
    requires n < |motors| && FirstMotorError(motors[..n]) == Ok && complaint != Ok
    ensures FirstMotorError(motors[..n + 1]) == complaint <==> Complains(motors, n, complaint)
  {
    var longer := motors[..n + 1];
    assert longer[..n] == motors[..n];
    if k :| 0 <= k < n && motors[k].id == motors[n].id {
      assert longer[..n][k].id == motors[n].id;
    }
  }

  /** The complaint about a list is the one about its first motor that has any. */
  lemma {:induction false} FirstComplaint(motors: seq<Motor>, n: nat, complaint: Error)
    requires n < |motors| && FirstMotorError(motors[..n]) == Ok && Complains(motors, n, complaint)
    ensures FirstMotorError(motors) == complaint
  {
    hide FirstMotorError;
    ComplaintOfNext(motors, n, complaint);
    FirstErrorOfPrefix(motors, n + 1);
  }

  ghost function Validation(motors: seq<Motor>): (e: Error)
    ensures e == Ok <==> MotorsValid(motors)
  {
    if FirstMotorError(motors) != Ok then FirstMotorError(motors)
    else if !HasSide(motors, LeftSide) then MissingLeftMotor
    else if !HasSide(motors, RightSide) then MissingRightMotor
    else Ok
  }

  method ValidateMotors(motors: seq<Motor>) returns (error: Error)
    ensures error == Validation(motors)
  {
    var left, right := 0, 0;
    for index := 0 to |motors|
      invariant FirstMotorError(motors[..index]) == Ok
      invariant left > 0 <==> HasSide(motors[..index], LeftSide)
      invariant right > 0 <==> HasSide(motors[..index], RightSide)
      invariant left >= 0 && right >= 0
    {
      var motor := motors[index];
      assert motors[..index + 1][..index] == motors[..index];
      assert FirstMotorError(motors[..index + 1]) != Ok ==>
          FirstMotorError(motors) == FirstMotorError(motors[..index + 1]) by {
        if FirstMotorError(motors[..index + 1]) != Ok {
          FirstErrorOfPrefix(motors, index + 1);
        }
      }
      if motor.wheelRadius <= 0.0 {
        return InvalidWheelRadius;
      }
      if motor.ratio <= 0.0 {
        return InvalidRatio;
      }
      if motor.directionSign != -1 && motor.directionSign != 1 {
        return InvalidDirectionSign;
      }
      if motor.maxAbsRpm <= 0.0 {
        return InvalidMaxAbsRpm;
      }
      for previous := 0 to index
        invariant forall k | 0 <= k < previous :: motors[k].id != motor.id
      {
        if motors[previous].id == motor.id {
          assert motors[..index][previous].id == motor.id;
          assert HasId(motors[..index], motor.id);
          return DuplicateActuatorId;
        }
      }
      assert !HasId(motors[..index], motor.id);
      assert forall side :: HasSide(motors[..index + 1], side) <==>
          HasSide(motors[..index], side) || motor.side == side by {
        SideStep(motors, index);
      }
      if motor.side == LeftSide {
        left := left + 1;
      } else {
        right := right + 1;
      }
    }
    assert motors[..|motors|] == motors;
    if left == 0 {
      return MissingLeftMotor;
    }
    if right == 0 {
      return MissingRightMotor;
    }
    return Ok;
  }

  lemma {:induction false} SideStep(motors: seq<Motor>, index: nat)
    requires index < |motors|
    ensures forall side :: HasSide(motors[..index + 1], side) <==>
              HasSide(motors[..index], side) || motors[index].side == side
  {
    var longer, shorter := motors[..index + 1], motors[..index];
    forall side
      ensures HasSide(longer, side) <==> HasSide(shorter, side) || motors[index].side == side
    {
      if HasSide(shorter, side) {
        var i :| 0 <= i < |shorter| && shorter[i].side == side;
        assert longer[i].side == side;
      }
      if motors[index].side == side {
        assert longer[index].side == side;
      }
      if HasSide(longer, side) && motors[index].side != side {
        var i :| 0 <= i < |longer| && longer[i].side == side;
        assert shorter[i].side == side;
      }
    }
  }

  // ------------------------------------------------------------------------------- kinematics

  function WheelVelocity(config: Differential, velocity: BodyVelocity, side: Side): real {
    var yaw := velocity.wz * (config.trackWidth / 2.0);
    if side == LeftSide then velocity.vx - yaw else velocity.vx + yaw
  }

  function RawRpm(config: Differential, velocity: BodyVelocity, motor: Motor): real
    requires MotorValid(motor)
  {
    WheelVelocity(config, velocity, motor.side) / motor.wheelRadius * RPM_PER_RADIAN_PER_SECOND
    * motor.ratio * motor.directionSign as real
  }

  /** The scale that brings `rpm` down to the limit of one motor. */
  function MotorScale(motor: Motor, rpm: real): real
    requires MotorValid(motor)
  {
    if Abs(rpm) > motor.maxAbsRpm then motor.maxAbsRpm / Abs(rpm) else 1.0
  }

  function CommonScale(config: Differential, velocity: BodyVelocity, motors: seq<Motor>): real
    requires forall i | 0 <= i < |motors| :: MotorValid(motors[i])
  {
    if motors == [] then 1.0
    else
      var last := |motors| - 1;
      var scale := CommonScale(config, velocity, motors[..last]);
      var own := MotorScale(motors[last], RawRpm(config, velocity, motors[last]));
      if own < scale then own else scale
  }

  /** copysign(limit, rpm) when the scaled value still exceeds the limit. */
  function Clamped(motor: Motor, rpm: real): real {
    if Abs(rpm) > motor.maxAbsRpm then (if rpm < 0.0 then -motor.maxAbsRpm else motor.maxAbsRpm) else rpm
  }

  function CommandFor(config: Differential, velocity: BodyVelocity, motor: Motor, scale: real): MotorCommand
    requires MotorValid(motor)
  {
    MotorCommand(motor.id, Clamped(motor, RawRpm(config, velocity, motor) * scale))
  }

  function Commands(config: Differential, velocity: BodyVelocity, motors: seq<Motor>): (c: seq<MotorCommand>)
    requires forall i | 0 <= i < |motors| :: MotorValid(motors[i])
    ensures |c| == |motors|
    ensures forall i | 0 <= i < |motors| ::
      c[i] == CommandFor(config, velocity, motors[i], CommonScale(config, velocity, motors))
  {
    hide RawRpm;
    var scale := CommonScale(config, velocity, motors);
    seq(|motors|, i requires 0 <= i < |motors| => CommandFor(config, velocity, motors[i], scale))
  }

  /** The error of the inverse, in the order of its tests. */
  ghost function InverseError(config: Differential, velocity: BodyVelocity, motors: seq<Motor>, capacity: nat): Error {
    if |motors| == 0 then MotorCountZero
    else if capacity < |motors| then OutputCapacity
    else if config.trackWidth <= 0.0 then InvalidTrackWidth
    else if config.vyEpsilon < 0.0 then InvalidVyEpsilon
    else if Abs(velocity.vy) > config.vyEpsilon then UnsupportedLateralVelocity
    else Validation(motors)
  }

  /** When the inverse accepts a velocity, and what it complains about first when it does not. */
  lemma {:induction false} InverseErrorIff(
    config: Differential, velocity: BodyVelocity, motors: seq<Motor>, capacity: nat)
    ensures var error := InverseError(config, velocity, motors, capacity);
            var fits := 0 < |motors| <= capacity; var wide := config.trackWidth > 0.0; var eps := config.vyEpsilon;
            var straight := eps >= 0.0 && -eps <= velocity.vy <= eps;
            var sound := fits && wide && straight && FirstMotorError(motors) == Ok;
            && (error == MotorCountZero <==> |motors| == 0)
            && (error == OutputCapacity <==> |motors| > 0 && capacity < |motors|)
            && (error == InvalidTrackWidth <==> fits && !wide)
            && (error == InvalidVyEpsilon <==> fits && wide && !(eps >= 0.0))
            && (error == UnsupportedLateralVelocity <==> fits && wide && eps >= 0.0 && !straight)
            && (error == MissingLeftMotor <==> sound && forall i | 0 <= i < |motors| :: motors[i].side == RightSide)
            && (error == MissingRightMotor <==>
                  sound && motors[0].side == LeftSide && forall i | 0 <= i < |motors| :: motors[i].side == LeftSide)
            && (error == Ok <==> fits && wide && straight && MotorsValid(motors))
  {
    hide DistinctIds;
    ComplaintIsOfMotors(motors);
    hide FirstMotorError;
    if forall i | 0 <= i < |motors| :: motors[i].side != LeftSide {
      assert forall i | 0 <= i < |motors| :: motors[i].side == RightSide;
    }
  }

  lemma {:induction false} ComplaintIsOfMotors(motors: seq<Motor>)
    ensures var error := FirstMotorError(motors);
            || error == Ok || error == InvalidWheelRadius || error == InvalidRatio || error == InvalidDirectionSign
            || error == InvalidMaxAbsRpm || error == DuplicateActuatorId
  {
    if motors != [] {
      ComplaintIsOfMotors(motors[..|motors| - 1]);
    }
  }

  method DifferentialInverse(
    config: Differential, motors: seq<Motor>, velocity: BodyVelocity, commands: array<MotorCommand>, previous: Report)
    returns (error: Error, report: Report)
    modifies commands
    ensures error == InverseError(config, velocity, motors, commands.Length)
    ensures error != Ok ==> commands[..] == old(commands[..]) && report == previous
    ensures error == Ok ==>
              && commands[..|motors|] == Commands(config, velocity, motors)
              && commands[|motors|..] == old(commands[|motors|..])
              && report.scale == CommonScale(config, velocity, motors)
              && report.saturated == (report.scale < 1.0)
  {
    hide RawRpm;
    report := previous;
    if |motors| == 0 {
      return MotorCountZero, report;
    }
    if commands.Length < |motors| {
      return OutputCapacity, report;
    }
    if config.trackWidth <= 0.0 {
      return InvalidTrackWidth, report;
    }
    if config.vyEpsilon < 0.0 {
      return InvalidVyEpsilon, report;
    }
    if Abs(velocity.vy) > config.vyEpsilon {
      return UnsupportedLateralVelocity, report;
    }
    error := ValidateMotors(motors);
    if error != Ok {
      return;
    }
    var scale := SaturationScale(config, motors, velocity);
    FillCommands(config, motors, velocity, scale, commands);
    report := Report(scale, scale < 1.0);
  }

  /** First pass: the running minimum of the scales of the motors. */
  method SaturationScale(config: Differential, motors: seq<Motor>, velocity: BodyVelocity) returns (scale: real)
    requires forall i | 0 <= i < |motors| :: MotorValid(motors[i])
    ensures scale == CommonScale(config, velocity, motors)
  {
    hide RawRpm;
    scale := 1.0;
    for index := 0 to |motors|
      invariant scale == CommonScale(config, velocity, motors[..index])
    {
      assert motors[..index + 1][..index] == motors[..index];
      ScaleBounds(config, velocity, motors[..index]);
      var raw := RawRpm(config, velocity, motors[index]);
      if Abs(raw) > motors[index].maxAbsRpm {
        var motorScale := motors[index].maxAbsRpm / Abs(raw);
        if motorScale < scale {
          scale := motorScale;
        }
      }
    }
    assert motors[..|motors|] == motors;
  }

  /** Second pass: the scaled and clamped speeds, in the order of the motors. */
  method FillCommands(
    config: Differential, motors: seq<Motor>, velocity: BodyVelocity, scale: real, commands: array<MotorCommand>)
    requires forall i | 0 <= i < |motors| :: MotorValid(motors[i])
    requires |motors| <= commands.Length
    modifies commands
    ensures forall k | 0 <= k < |motors| :: commands[k] == CommandFor(config, velocity, motors[k], scale)
    ensures forall k | |motors| <= k < commands.Length :: commands[k] == old(commands[k])
  {
    hide RawRpm;
    for index := 0 to |motors|
      invariant forall k | 0 <= k < index :: commands[k] == CommandFor(config, velocity, motors[k], scale)
      invariant forall k | |motors| <= k < commands.Length :: commands[k] == old(commands[k])
    {
      var rpm := RawRpm(config, velocity, motors[index]) * scale;
      if Abs(rpm) > motors[index].maxAbsRpm {
        rpm := if rpm < 0.0 then -motors[index].maxAbsRpm else motors[index].maxAbsRpm;
      }
      commands[index] := MotorCommand(motors[index].id, rpm);
    }
  }

  // ------------------------------------------------------------------------- what saturation means

  lemma {:induction false} DivideBounds(a: real, b: real)
    requires 0.0 < a < b
    ensures 0.0 < a / b < 1.0 && b * (a / b) == a
  {
    assert b * (a / b) == a;
    if a / b >= 1.0 {
      MulMonotone(b, 1.0, a / b);
    } else if a / b <= 0.0 {
      MulMonotone(b, a / b, 0.0);
    }
  }

  lemma {:induction false} MulMonotone(a: real, s: real, t: real)
    requires a >= 0.0 && s <= t
    ensures a * s <= a * t
  {
  }

  lemma {:induction false} MulCancel(a: real, s: real, t: real)
    requires a > 0.0 && a * s <= a * t
    ensures s <= t
  {
    var d := s - t;
    assert a * s == a * t + a * d;
    assert d > 0.0 ==> a * d > 0.0;
  }

  lemma {:induction false} ScaleBounds(config: Differential, velocity: BodyVelocity, motors: seq<Motor>)
    requires forall i | 0 <= i < |motors| :: MotorValid(motors[i])
    ensures 0.0 < CommonScale(config, velocity, motors) <= 1.0
  {
    hide RawRpm;
    if motors != [] {
      var last := |motors| - 1;
      ScaleBounds(config, velocity, motors[..last]);
      var raw := Abs(RawRpm(config, velocity, motors[last]));
      if raw > motors[last].maxAbsRpm {
        DivideBounds(motors[last].maxAbsRpm, raw);
      }
    }
  }

  predicate Meets(config: Differential, velocity: BodyVelocity, motor: Motor, scale: real)
    requires MotorValid(motor)
  {
    Abs(RawRpm(config, velocity, motor)) * scale <= motor.maxAbsRpm
  }

  predicate AllMeet(config: Differential, velocity: BodyVelocity, motors: seq<Motor>, scale: real)
    requires forall i | 0 <= i < |motors| :: MotorValid(motors[i])
  {
    forall i | 0 <= i < |motors| :: Meets(config, velocity, motors[i], scale)
  }

  lemma {:induction false} MotorScaleIsLargest(config: Differential, velocity: BodyVelocity, motor: Motor, s: real)
    requires MotorValid(motor) && 0.0 <= s <= 1.0
    ensures 0.0 < MotorScale(motor, RawRpm(config, velocity, motor)) <= 1.0
    ensures Meets(config, velocity, motor, s) <==> s <= MotorScale(motor, RawRpm(config, velocity, motor))
  {
    hide RawRpm;
    var raw := Abs(RawRpm(config, velocity, motor));
    var own := MotorScale(motor, RawRpm(config, velocity, motor));
    if raw > motor.maxAbsRpm {
      DivideBounds(motor.maxAbsRpm, raw);
      if s <= own {
        MulMonotone(raw, s, own);
      } else if raw * s <= raw * own {
        MulCancel(raw, s, own);
      }
    } else {
      MulMonotone(raw, s, 1.0);
    }
  }

  /** The common scale is the largest number in (0, 1] that meets the limit of every motor. */
  lemma {:induction false} ScaleIsLargest(
    config: Differential, velocity: BodyVelocity, motors: seq<Motor>, s: real)
    requires forall i | 0 <= i < |motors| :: MotorValid(motors[i])
    requires 0.0 <= s <= 1.0
    ensures 0.0 < CommonScale(config, velocity, motors) <= 1.0
    ensures AllMeet(config, velocity, motors, s) <==> s <= CommonScale(config, velocity, motors)
  {
    hide RawRpm, Meets, MotorScale;
    ScaleBounds(config, velocity, motors);
    if motors != [] {
      var last := |motors| - 1;
      ScaleIsLargest(config, velocity, motors[..last], s);
      MotorScaleIsLargest(config, velocity, motors[last], s);
      assert motors == motors[..last] + [motors[last]];
    }
  }

  lemma {:induction false} AbsOfScaled(x: real, scale: real)
    requires scale >= 0.0
    ensures Abs(x * scale) == Abs(x) * scale
  {
  }

  /** The final clamp never acts: every command is the common scale times the unsaturated speed, and
      stays inside the limit of its motor. */
  lemma {:induction false} CommandsKeepShape(config: Differential, velocity: BodyVelocity, motors: seq<Motor>, i: nat)
    requires forall k | 0 <= k < |motors| :: MotorValid(motors[k])
    requires i < |motors|
    ensures var c := Commands(config, velocity, motors)[i];
            && c.id == motors[i].id
            && c.rpm == RawRpm(config, velocity, motors[i]) * CommonScale(config, velocity, motors)
            && Abs(c.rpm) <= motors[i].maxAbsRpm
  {
    hide RawRpm, CommonScale;
    var raw, scale := RawRpm(config, velocity, motors[i]), CommonScale(config, velocity, motors);
    ScaleBounds(config, velocity, motors);
    ScaleIsLargest(config, velocity, motors, scale);
    AbsOfScaled(raw, scale);
    assert Meets(config, velocity, motors[i], scale);
  }

  /** The wheel velocity that a motor speed produces: the motor model read backwards. */
  function WheelOf(motor: Motor, rpm: real): real
    requires MotorValid(motor)
  {
    rpm * motor.directionSign as real / motor.ratio / RPM_PER_RADIAN_PER_SECOND * motor.wheelRadius
  }

  lemma {:induction false} WheelRoundTrip(v: real, r: real, k: real, q: real, sign: real, scale: real)
    requires r > 0.0 && k > 0.0 && q > 0.0 && (sign == 1.0 || sign == -1.0)
    ensures v / r * k * q * sign * scale * sign / q / k * r == v * scale
  {
    var w := v / r;
    var u := w * k * q;
    assert u * sign * scale * sign == u * scale;
    assert u * scale == (w * k * scale) * q;
    assert (w * k * scale) * q / q == w * k * scale;
    assert w * k * scale == (w * scale) * k;
    assert (w * scale) * k / k == w * scale;
    assert w * scale * r == (w * r) * scale;
    assert w * r == v;
  }

  lemma {:induction false} WheelOfCommand(
    config: Differential, velocity: BodyVelocity, motor: Motor, scale: real, rpm: real)
    requires MotorValid(motor) && rpm == RawRpm(config, velocity, motor) * scale
    ensures WheelOf(motor, rpm) == WheelVelocity(config, velocity, motor.side) * scale
  {
    WheelRoundTrip(WheelVelocity(config, velocity, motor.side), motor.wheelRadius,
                   RPM_PER_RADIAN_PER_SECOND, motor.ratio, motor.directionSign as real, scale);
  }

  /** Forward kinematics of the differential drive. */
  function ForwardVx(left: real, right: real): real {
    (left + right) / 2.0
  }

  function ForwardWz(config: Differential, left: real, right: real): real
    requires config.trackWidth > 0.0
  {
    (right - left) / config.trackWidth
  }

  lemma {:induction false} ForwardOfScaledWheels(
    config: Differential, velocity: BodyVelocity, scale: real, left: real, right: real)
    requires config.trackWidth > 0.0
    requires left == WheelVelocity(config, velocity, LeftSide) * scale
    requires right == WheelVelocity(config, velocity, RightSide) * scale
    ensures ForwardVx(left, right) == scale * velocity.vx
    ensures ForwardWz(config, left, right) == scale * velocity.wz
  {
    var track, wz, vx := config.trackWidth, velocity.wz, velocity.vx;
    var yaw := wz * (track / 2.0);
    assert (vx - yaw) * scale == vx * scale - yaw * scale;
    assert (vx + yaw) * scale == vx * scale + yaw * scale;
    assert yaw * 2.0 == wz * track;
    assert yaw * scale * 2.0 == (yaw * 2.0) * scale;
    assert (wz * track) * scale == (scale * wz) * track;
    assert (scale * wz) * track / track == scale * wz;
  }

  /** Saturation keeps the shape of the motion: forward kinematics of any left and any right
      command gives the common scale times the requested forward and turning speed. */
  lemma {:induction false} ForwardOfCommands(
    config: Differential, velocity: BodyVelocity, motors: seq<Motor>, l: nat, r: nat)
    requires forall k | 0 <= k < |motors| :: MotorValid(motors[k])
    requires config.trackWidth > 0.0
    requires l < |motors| && r < |motors| && motors[l].side == LeftSide && motors[r].side == RightSide
    ensures var scale := CommonScale(config, velocity, motors);
            var left := WheelOf(motors[l], Commands(config, velocity, motors)[l].rpm);
            var right := WheelOf(motors[r], Commands(config, velocity, motors)[r].rpm);
            ForwardVx(left, right) == scale * velocity.vx && ForwardWz(config, left, right) == scale * velocity.wz
  {
    hide RawRpm, WheelOf, CommonScale, Commands, WheelVelocity, ForwardVx, ForwardWz;
    var scale, commands := CommonScale(config, velocity, motors), Commands(config, velocity, motors);
    CommandsKeepShape(config, velocity, motors, l);
    CommandsKeepShape(config, velocity, motors, r);
    WheelOfCommand(config, velocity, motors[l], scale, commands[l].rpm);
    WheelOfCommand(config, velocity, motors[r], scale, commands[r].rpm);
    ForwardOfScaledWheels(config, velocity, scale,
                          WheelOf(motors[l], commands[l].rpm), WheelOf(motors[r], commands[r].rpm));
  }
}
