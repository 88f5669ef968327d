/** The offline tool that makes the calibration table: its check of a table, in exact arithmetic, and
    the search for the strongest correction that stays strictly monotonic. */
module CalibrationTool {
  import opened MachineIntegers
  import opened Prelude
  import opened CalibrationLut

  const NODE_STEP: real := 360.0 / 128.0
  const RAW_STEP: real := 360.0 / 4096.0

  /** The non-negative remainder of a turn. */
  function TurnRemainder(angle: real): real {
    angle - 360.0 * (angle / 360.0).Floor as real
  }

  /** The angle is so many whole turns and a rest. */
  predicate Turned(angle: real, turns: int, rest: real) {
    0.0 <= rest < 360.0 && angle == 360.0 * turns as real + rest
  }

  lemma {:induction false} TurnRemainderIff(angle: real, rest: real)
    ensures rest == TurnRemainder(angle) <==> exists turns: int :: Turned(angle, turns, rest)
  {
    var whole := (angle / 360.0).Floor;
    assert whole as real <= angle / 360.0 < whole as real + 1.0;
    assert Turned(angle, whole, TurnRemainder(angle));
    forall turns: int | Turned(angle, turns, rest) ensures turns == whole {
      assert turns as real <= angle / 360.0 < turns as real + 1.0;
    }
  }

  function Blend(a: real, b: real, fraction: real): real {
    a + fraction * (b - a)
  }

  function Interpolated(lut: seq<real>, angle: real): real
    requires |lut| == NODES
  {
    var position := TurnRemainder(angle) / NODE_STEP;
    var lower := position.Floor % NODES;
    var fraction := position - position.Floor as real;
    Blend(lut[lower], lut[(lower + 1) % NODES], fraction)
  }

  function Degrees(lut: seq<int>): (degrees: seq<real>)
    ensures |degrees| == |lut|
  {
    seq(|lut|, i requires 0 <= i < |lut| => lut[i] as real * 0.01)
  }

  /** The angle the table maps a raw count to; count 4096 closes the turn. */
  function Mapped(lut: seq<int>, raw: nat): real
    requires |lut| == NODES
  {
    if raw == COUNTS then 360.0 + Degrees(lut)[0]
    else raw as real * RAW_STEP + Interpolated(Degrees(lut), raw as real * RAW_STEP)
  }

  lemma {:induction false} PositionOf(raw: nat)
    requires raw < COUNTS
    ensures var position := TurnRemainder(raw as real * RAW_STEP) / NODE_STEP;
            && position.Floor == raw / PER_NODE
            && position - position.Floor as real == (raw % PER_NODE) as real / 32.0
  {
    var angle := raw as real * RAW_STEP;
    assert 0.0 <= angle < 360.0;
    assert (angle / 360.0).Floor == 0;
    var position := angle / NODE_STEP;
    assert position == raw as real / 32.0;
    assert raw == PER_NODE * (raw / PER_NODE) + raw % PER_NODE;
    assert position == (raw / PER_NODE) as real + (raw % PER_NODE) as real / 32.0;
  }

  /** The tool looks at the same angles as the profile and the device. */
  lemma {:induction false} ToolIsProfile(t: Table, raw: nat)
    requires raw < COUNTS
    ensures Mapped(t, raw) == MappedDegrees(t, raw)
  {
    hide TurnRemainder, Blend, Blended;
    PositionOf(raw);
    var index := raw / PER_NODE;
    assert index % NODES == index && raw % COUNTS == raw;
    Centi(t[index], t[(index + 1) % NODES], (raw % PER_NODE) as real / 32.0);
  }

  lemma {:induction false} ClosingCount(t: Table)
    ensures Mapped(t, COUNTS) == Lift(t, COUNTS) as real / 409600.0
  {
    assert CorrectedScaled(Some(t), 0) == t[0] * 4096;
    hide CorrectedScaled;
    assert Lift(t, COUNTS) == FULL_TURN + CorrectedScaled(Some(t), 0);
  }

  lemma {:induction false} ToolIsScaled(t: Table, raw: nat)
    requires raw <= COUNTS
    ensures Mapped(t, raw) == Lift(t, raw) as real / 409600.0
  {
    hide Mapped, MappedDegrees, Lift;
    if raw < COUNTS {
      ToolIsProfile(t, raw);
      DegreesAreScaled(t, raw);
      LiftOfTurn(t, raw);
    } else {
      ClosingCount(t);
    }
  }

  lemma {:induction false} Centi(a: int, b: int, fraction: real)
    ensures Blend(a as real * 0.01, b as real * 0.01, fraction)
            == Blended(a as real, b as real, fraction) * 0.01
  {
  }

  // ------------------------------------------------------------------------ the check of a table

  /** Also the least and the greatest increment, in degrees a count. */
  datatype Validation = Validation(monotonic: bool, invalidIncrements: nat, least: real, greatest: real)

  datatype CheckResult = Checked(validation: Validation) | WrongLength | NodeOutOfRange

  function BadNodes(t: Table, n: nat): (count: nat)
    requires n <= NODES
    ensures count == 0 <==> forall node | 0 <= node < n :: Step(t, node) >= LEAST_STEP
  {
    if n == 0 then 0 else BadNodes(t, n - 1) + if Step(t, n - 1) >= LEAST_STEP then 0 else 1
  }

  /** All 32 increments behind a node are those of its step. */
  function IncrementOf(step: int): real {
    (CENTIDEGREES_PER_TURN + 128 * step) as real / 409600.0
  }

  function SmallestStep(t: Table, n: nat): (smallest: int)
    requires 1 <= n <= NODES
    ensures exists node | 0 <= node < n :: Step(t, node) == smallest
    ensures forall node | 0 <= node < n :: smallest <= Step(t, node)
  {
    var last := Step(t, n - 1);
    if n == 1 || last < SmallestStep(t, n - 1) then last else SmallestStep(t, n - 1)
  }

  function LargestStep(t: Table, n: nat): (largest: int)
    requires 1 <= n <= NODES
    ensures exists node | 0 <= node < n :: Step(t, node) == largest
    ensures forall node | 0 <= node < n :: Step(t, node) <= largest
  {
    var last := Step(t, n - 1);
    if n == 1 || last > LargestStep(t, n - 1) then last else LargestStep(t, n - 1)
  }

  function CheckOf(lut: seq<int>): CheckResult {
    if |lut| != NODES then WrongLength
    else if exists i | 0 <= i < |lut| :: lut[i] < I16_MIN || lut[i] > I16_MAX then NodeOutOfRange
    else Checked(Validation(StepsValid(lut), PER_NODE * BadNodes(lut, NODES),
                            IncrementOf(SmallestStep(lut, NODES)), IncrementOf(LargestStep(lut, NODES))))
  }

  /** A table of another length than 128, and one with a node beyond 16 bits, are refused; every other one is
      checked. */
  lemma {:induction false} CheckIff(lut: seq<int>)
    ensures CheckOf(lut) == WrongLength <==> |lut| != 128
    ensures CheckOf(lut) == NodeOutOfRange <==>
              |lut| == 128 && exists node | node in lut :: !(-32768 <= node <= 32767)
    ensures CheckOf(lut).Checked? <==> |lut| == 128 && forall node | node in lut :: -32768 <= node <= 32767
  {
    hide StepsValid, BadNodes, IncrementOf, SmallestStep, LargestStep;
    if node :| node in lut && !(-32768 <= node <= 32767) {
      var i :| 0 <= i < |lut| && lut[i] == node;
    }
    if i :| 0 <= i < |lut| && !(-32768 <= lut[i] <= 32767) {
      assert lut[i] in lut;
    }
  }

  lemma {:induction false} ToolIncrement(t: Table, raw: nat)
    requires raw < COUNTS
    ensures Mapped(t, raw + 1) - Mapped(t, raw) == IncrementOf(Step(t, raw / PER_NODE))
    ensures Mapped(t, raw + 1) - Mapped(t, raw) <= 0.0 <==> Step(t, raw / PER_NODE) < LEAST_STEP
  {
    hide Mapped, Lift, Step;
    ToolIsScaled(t, raw);
    ToolIsScaled(t, raw + 1);
    LiftIncrement(t, raw);
    assert raw % COUNTS == raw;
    IncrementPositiveIff(Step(t, raw / PER_NODE));
    ScaledOrder(Lift(t, raw), Lift(t, raw + 1));
  }

  lemma {:induction false} IncrementOrder(a: int, b: int)
    ensures IncrementOf(a) < IncrementOf(b) <==> a < b
  {
  }

  /** From one count to the next, the extreme steps of the nodes begun so far. */
  lemma {:induction false} ExtremeSteps(t: Table, raw: nat)
    requires 0 < raw < COUNTS
    ensures var before, now, step := (raw - 1) / PER_NODE + 1, raw / PER_NODE + 1, Step(t, raw / PER_NODE);
            && SmallestStep(t, now) == Min(SmallestStep(t, before), step)
            && -LargestStep(t, now) == Min(-LargestStep(t, before), -step)
  {
    hide Step;
    NextInNode(raw - 1);
  }

  /** The nominal increment lies between the least and the greatest one: the steps of a closed table
      cannot all rise or all fall. */
  lemma {:induction false} NominalLiesBetween(t: Table)
    ensures IncrementOf(SmallestStep(t, NODES)) <= RAW_STEP <= IncrementOf(LargestStep(t, NODES))
  {
    if SmallestStep(t, NODES) > 0 {
      Climbs(t, NODES - 1);
    }
    if LargestStep(t, NODES) < 0 {
      Falls(t, NODES - 1);
    }
    hide SmallestStep, LargestStep;
    assert IncrementOf(0) == RAW_STEP;
    IncrementOrder(SmallestStep(t, NODES), 0);
    IncrementOrder(0, LargestStep(t, NODES));
    IncrementOrder(0, SmallestStep(t, NODES));
    IncrementOrder(LargestStep(t, NODES), 0);
  }

  lemma {:induction false} Climbs(t: Table, n: nat)
    requires n < NODES && forall node | 0 <= node < n :: Step(t, node) > 0
    ensures t[0] <= t[n]
  {
    if n > 0 {
      Climbs(t, n - 1);
      assert Step(t, n - 1) > 0;
    }
  }

  lemma {:induction false} Falls(t: Table, n: nat)
    requires n < NODES && forall node | 0 <= node < n :: Step(t, node) < 0
    ensures t[0] >= t[n]
  {
    if n > 0 {
      Falls(t, n - 1);
      assert Step(t, n - 1) < 0;
    }
  }

  method ExtremeIncrements(t: Table) returns (least: real, greatest: real)
    ensures least == IncrementOf(SmallestStep(t, NODES)) && greatest == IncrementOf(LargestStep(t, NODES))
  {
    hide Mapped, Step, IncrementOf, SmallestStep, LargestStep;
    least, greatest := 0.0, 0.0;
    for raw := 0 to COUNTS
      invariant raw > 0 ==>
        && least == IncrementOf(SmallestStep(t, (raw - 1) / PER_NODE + 1))
        && greatest == IncrementOf(LargestStep(t, (raw - 1) / PER_NODE + 1))
    {
      ToolIncrement(t, raw);
      var increment := Mapped(t, raw + 1) - Mapped(t, raw);
      KeepExtremes(t, raw, increment, least, greatest);
      if raw == 0 || increment < least {
        least := increment;
      }
      if raw == 0 || increment > greatest {
        greatest := increment;
      }
    }
  }

  /** A bad node makes all of its 32 increments invalid, and a good one none: the number of invalid
      increments is 32 times the number of bad nodes, and the extreme increments are those of the
      extreme steps. */
  method ValidateLut(lut: seq<int>) returns (result: CheckResult)
    ensures result == CheckOf(lut)
  {
    if |lut| != NODES {
      return WrongLength;
    }
    for index := 0 to |lut|
      invariant forall i | 0 <= i < index :: I16_MIN <= lut[i] <= I16_MAX
    {
      if lut[index] < I16_MIN || lut[index] > I16_MAX {
        return NodeOutOfRange;
      }
    }
    hide Mapped, Step, IncrementOf, SmallestStep, LargestStep;
    var least, greatest := ExtremeIncrements(lut);
    var invalid := 0;
    for raw := 0 to COUNTS
      invariant invalid == PER_NODE * BadNodes(lut, raw / PER_NODE)
                           + (if raw < COUNTS && Step(lut, raw / PER_NODE) < LEAST_STEP then raw % PER_NODE else 0)
    {
      ToolIncrement(lut, raw);
      if Mapped(lut, raw + 1) - Mapped(lut, raw) <= 0.0 {
        invalid := invalid + 1;
      }
      NextInNode(raw);
    }
    return Checked(Validation(invalid == 0, invalid, least, greatest));
  }

  lemma {:induction false} KeepExtremes(t: Table, raw: nat, increment: real, least: real, greatest: real)
    requires raw < COUNTS && increment == IncrementOf(Step(t, raw / PER_NODE))
    requires raw > 0 ==>
               && least == IncrementOf(SmallestStep(t, (raw - 1) / PER_NODE + 1))
               && greatest == IncrementOf(LargestStep(t, (raw - 1) / PER_NODE + 1))
    ensures IncrementOf(SmallestStep(t, raw / PER_NODE + 1)) ==
              if raw == 0 || increment < least then increment else least
    ensures IncrementOf(LargestStep(t, raw / PER_NODE + 1)) ==
              if raw == 0 || increment > greatest then increment else greatest
  {
    if raw == 0 {
      assert SmallestStep(t, 1) == Step(t, 0) && LargestStep(t, 1) == Step(t, 0);
    } else {
      ExtremeSteps(t, raw);
      var node := (raw - 1) / PER_NODE + 1;
      IncrementOrder(Step(t, raw / PER_NODE), SmallestStep(t, node));
      IncrementOrder(LargestStep(t, node), Step(t, raw / PER_NODE));
      hide IncrementOf, SmallestStep, LargestStep, Step;
    }
  }

  lemma {:induction false} NextInNode(raw: nat)
    ensures if raw % PER_NODE == PER_NODE - 1
            then (raw + 1) / PER_NODE == raw / PER_NODE + 1 && (raw + 1) % PER_NODE == 0
            else (raw + 1) / PER_NODE == raw / PER_NODE && (raw + 1) % PER_NODE == raw % PER_NODE + 1
  {
  }

  // -------------------------------------------------------------------------------- quantisation

  /** round(): to the nearest integer, halves to the even one. */
  function RoundHalfEven(x: real): int {
    var low := x.Floor;
    var rest := x - low as real;
    if rest < 0.5 then low
    else if rest > 0.5 then low + 1
    else if low % 2 == 0 then low
    else low + 1
  }

  lemma {:induction false} RoundIsNearest(x: real)
    ensures -0.5 <= x - RoundHalfEven(x) as real <= 0.5
  {
  }

  /** It is the nearest integer, and of two nearest ones the even one. */
  lemma {:induction false} RoundIff(x: real, n: int)
    ensures n == RoundHalfEven(x) <==>
              && -0.5 <= x - n as real <= 0.5
              && (x - n as real == 0.5 || x - n as real == -0.5 ==> n % 2 == 0)
  {
    var low := x.Floor;
    assert n <= low - 1 ==> x - n as real >= 1.0;
    assert n >= low + 2 ==> x - n as real <= -1.0;
  }

  function Sum(s: seq<int>): int {
    if s == [] then 0 else Sum(s[..|s| - 1]) + s[|s| - 1]
  }

  function Mean(s: seq<int>): real {
    if s == [] then 0.0 else Sum(s) as real / |s| as real
  }

  /** In centidegrees. */
  function Scaled(value: real, permille: nat): real {
    value * (permille as real / 1000.0) / 0.01
  }

  /** A thousandth of a degree is a tenth of a centidegree. */
  lemma {:induction false} ScaledIs(value: real, permille: nat)
    ensures Scaled(value, permille) * 10.0 == value * permille as real
    ensures Scaled(value, 1000) == 100.0 * value
  {
  }

  function Rounded(values: seq<real>, permille: nat): (rounded: seq<int>)
    ensures |rounded| == |values|
  {
    seq(|values|, i requires 0 <= i < |values| => RoundHalfEven(Scaled(values[i], permille)))
  }

  /** The values times permille / 1000 in whole centidegrees, moved so that their mean is about zero. */
  function Quantized(values: seq<real>, permille: nat): (q: seq<int>)
    ensures |q| == |values|
  {
    var rounded := Rounded(values, permille);
    var offset := Offset(values, permille);
    seq(|rounded|, i requires 0 <= i < |rounded| => rounded[i] - offset)
  }

  lemma {:induction false} SumShifted(s: seq<int>, q: seq<int>, offset: int)
    requires |q| == |s| && forall i | 0 <= i < |s| :: q[i] == s[i] - offset
    ensures Sum(q) == Sum(s) - |s| * offset
  {
    if s != [] {
      SumShifted(s[..|s| - 1], q[..|q| - 1], offset);
    }
  }

  lemma {:induction false} QuotientTimes(x: real, n: real)
    requires n > 0.0
    ensures x / n * n == x
  {
  }

  lemma {:induction false} Stretch(mean: real, offset: real, n: real, sum: real)
    requires -0.5 <= mean - offset <= 0.5 && n > 0.0 && mean * n == sum
    ensures -n <= 2.0 * (sum - n * offset) <= n
  {
    var x := mean - offset;
    assert x * n == sum - n * offset;
    assert -0.5 * n <= x * n <= 0.5 * n;
  }

  lemma {:induction false} RealProduct(n: int, offset: int)
    ensures n as real * offset as real == (n * offset) as real
  {
  }

  lemma {:induction false} SumNear(sum: int, n: int, offset: int)
    requires n > 0 && -0.5 <= sum as real / n as real - offset as real <= 0.5
    ensures -n <= 2 * (sum - n * offset) <= n
  {
    QuotientTimes(sum as real, n as real);
    Stretch(sum as real / n as real, offset as real, n as real, sum as real);
    RealProduct(n, offset);
  }

  function Offset(values: seq<real>, permille: nat): int {
    RoundHalfEven(Mean(Rounded(values, permille)))
  }

  /** The quantised table is centred to within half a centidegree. */
  lemma {:induction false} QuantizedIsCentred(values: seq<real>, permille: nat)
    requires |values| > 0
    ensures -(|values| as int) <= 2 * Sum(Quantized(values, permille)) <= |values|
  {
    hide RoundHalfEven;
    var rounded := Rounded(values, permille);
    RoundIsNearest(Mean(rounded));
    SumShifted(rounded, Quantized(values, permille), Offset(values, permille));
    SumNear(Sum(rounded), |rounded|, Offset(values, permille));
  }

  /** It differs from the scaled values by one common offset and at most half a centidegree a node. */
  lemma {:induction false} QuantizedIsNear(values: seq<real>, permille: nat, i: nat)
    requires i < |values|
    ensures -0.5 <= Scaled(values[i], permille)
                    - (Quantized(values, permille)[i] + Offset(values, permille)) as real <= 0.5
  {
    hide RoundHalfEven, Scaled;
    RoundIsNearest(Scaled(values[i], permille));
  }

  lemma {:induction false} SumOfZeros(s: seq<int>)
    requires forall i | 0 <= i < |s| :: s[i] == 0
    ensures Sum(s) == 0
  {
    if s != [] {
      SumOfZeros(s[..|s| - 1]);
    }
  }

  lemma {:induction false} NoScale(v: real)
    ensures Scaled(v, 0) == 0.0
  {
  }

  lemma {:induction false} ZeroScaleIsFlat(values: seq<real>)
    requires |values| == NODES
    ensures forall i | 0 <= i < |values| :: Quantized(values, 0)[i] == 0
  {
    var rounded := Rounded(values, 0);
    forall i | 0 <= i < |rounded| ensures rounded[i] == 0 {
      NoScale(values[i]);
    }
    SumOfZeros(rounded);
    assert Mean(rounded) == 0.0;
  }

  /** No correction at all is always monotonic. */
  lemma {:induction false} FlatIsValid(values: seq<real>)
    requires |values| == NODES
    ensures CheckOf(Quantized(values, 0)) == Checked(Validation(true, 0, RAW_STEP, RAW_STEP))
  {
    ZeroScaleIsFlat(values);
    var flat := Quantized(values, 0);
    hide Quantized;
    assert forall node | 0 <= node < NODES :: Step(flat, node) == 0;
    assert BadNodes(flat, NODES) == 0;
    hide SmallestStep, LargestStep, BadNodes;
    assert IncrementOf(0) == RAW_STEP;
  }

  // -------------------------------------------------------------------------- the strongest table

  datatype Safe =
    | SafeLut(lut: seq<int>, permille: nat, validation: Validation)
    | Rejected(check: CheckResult)
    | UnsafeAttenuation(permille: nat)
    | NoMonotonicLut

  predicate Monotonic(values: seq<real>, permille: nat) {
    var check := CheckOf(Quantized(values, permille)); check.Checked? && check.validation.monotonic
  }

  /** Tables of the wrong length or beyond 16 bits end the search at once. */
  predicate Checkable(values: seq<real>, permille: nat) {
    CheckOf(Quantized(values, permille)).Checked?
  }

  /** The first scale, from the whole correction down, at which the search ends. */
  ghost predicate EndsAt(values: seq<real>, permille: nat) {
    && permille <= 1000
    && (!Checkable(values, permille) || Monotonic(values, permille))
    && forall p | permille < p <= 1000 :: Checkable(values, p) && !Monotonic(values, p)
  }

  /** The search ends at the latest at the scale of no correction. */
  lemma {:induction false} SearchEnds(values: seq<real>)
    ensures !Checkable(values, 0) || Monotonic(values, 0)
  {
    if |values| == NODES {
      FlatIsValid(values);
    }
  }

  /** The search answers with the largest monotonic scale; the error of a search without an answer
      cannot happen, since a table of no correction always passes. */
  method MakeSafeLut(values: seq<real>) returns (safe: Safe)
    ensures safe != NoMonotonicLut
    ensures safe.SafeLut? ==>
              500 <= safe.permille <= 1000 && forall p: nat | safe.permille < p <= 1000 :: !Monotonic(values, p)
    ensures safe.SafeLut? ==>
              && EndsAt(values, safe.permille) && Monotonic(values, safe.permille) && safe.permille >= 500
              && safe.lut == Quantized(values, safe.permille) && CheckOf(safe.lut) == Checked(safe.validation)
              && |safe.lut| == NODES && (forall i | 0 <= i < NODES :: I16_MIN <= safe.lut[i] <= I16_MAX)
              && StepsValid(safe.lut)
    ensures safe.UnsafeAttenuation? ==>
              EndsAt(values, safe.permille) && Monotonic(values, safe.permille) && safe.permille < 500
    ensures safe.Rejected? ==>
              !safe.check.Checked? && exists p :: EndsAt(values, p) && CheckOf(Quantized(values, p)) == safe.check
  {
    SearchEnds(values);
    hide Quantized, StepsValid, BadNodes;
    for down := 0 to 1001
      invariant forall p: nat | 1000 - down < p <= 1000 :: Checkable(values, p) && !Monotonic(values, p)
    {
      var permille := 1000 - down;
      var candidate := Quantized(values, permille);
      var check := ValidateLut(candidate);
      if !check.Checked? {
        assert EndsAt(values, permille);
        return Rejected(check);
      }
      if check.validation.monotonic {
        return if permille < 500 then UnsafeAttenuation(permille) else SafeLut(candidate, permille, check.validation);
      }
    }
    assert false;
    return NoMonotonicLut;
  }
}
