/** The cyclic calibration table of the angle sensor in 32-bit fixed point: 128 nodes in
    centidegrees, interpolated over 4096 raw counts with a scale of 4096 per centidegree. */
module CalibrationLut {
  import opened MachineIntegers
  import opened Prelude

  const NODES: nat := 128
  const PER_NODE: nat := 32
  const COUNTS: nat := 4096
  const CENTIDEGREES_PER_TURN: nat := 36000
  const SCALE: nat := 4096
  const FULL_TURN: nat := 147_456_000
  /** The steepest fall between neighbouring nodes that a table may have. */
  const LEAST_STEP: int := -281

  /** 128 numbers of 16 bits. */
  type Table = t: seq<int> | |t| == NODES && forall i | 0 <= i < |t| :: I16_MIN <= t[i] <= I16_MAX
    witness seq(NODES, _ => 0)

  /** The metadata is present when the format version is known and all three texts are. */
  datatype Calibration = Calibration(metadata: bool, table: Table)

  /** The fall or rise from a node to its cyclic neighbour. */
  function Step(t: Table, node: nat): int
    requires node < NODES
  {
    t[(node + 1) % NODES] - t[node]
  }

  /** 128 comparisons. */
  predicate StepsValid(t: Table) {
    forall node | 0 <= node < NODES :: Step(t, node) >= LEAST_STEP
  }

  function Normalized(raw: U16): nat {
    raw % COUNTS
  }

  /** The correction `offset` counts behind a node of value `a`. */
  function Interpolated(a: int, step: int, offset: nat): int {
    (a * PER_NODE + step * offset) * (SCALE / PER_NODE)
  }

  function CorrectionScaled(c: Option<Table>, raw: U16): int {
    if c.None? then 0
    else
      var index, offset := Normalized(raw) / PER_NODE, Normalized(raw) % PER_NODE;
      var first, second := c.value[index], c.value[(index + 1) % NODES];
      Interpolated(first, second - first, offset)
  }

  function CorrectedScaled(c: Option<Table>, raw: U16): int {
    Normalized(raw) * CENTIDEGREES_PER_TURN + CorrectionScaled(c, raw)
  }

  /** The remainder of C: it has the sign of the dividend. */
  function TruncatedRemainder(x: int, m: nat): int
    requires m > 0
  {
    if x < 0 then -((-x) % m) else x % m
  }

  function WrapTurn(x: int): int {
    var wrapped := TruncatedRemainder(x, FULL_TURN);
    if wrapped < 0 then wrapped + FULL_TURN else wrapped
  }

  /** It is smaller than the divisor, differs from the dividend by a multiple of it, and is not of the other
      sign. */
  lemma {:induction false} TruncatedIs(x: int, m: nat) returns (quotient: int)
    requires m > 0
    ensures var rest := TruncatedRemainder(x, m);
            && x == quotient * m + rest && -(m as int) < rest < m
            && (x >= 0 ==> rest >= 0) && (x <= 0 ==> rest <= 0)
  {
    if x < 0 {
      quotient := -((-x) / m);
      assert -x == (-x) / m * m + (-x) % m;
      assert quotient * m == -((-x) / m * m);
    } else {
      quotient := x / m;
    }
  }

  /** Without a table the angle is the nominal one. */
  lemma {:induction false} Uncorrected(raw: U16)
    ensures CorrectedScaled(None, raw) == raw % COUNTS * CENTIDEGREES_PER_TURN
  {
  }

  /** Wrapping computes the mathematical remainder. */
  lemma {:induction false} WrapIsModulo(x: int)
    ensures WrapTurn(x) == x % FULL_TURN && 0 <= WrapTurn(x) < FULL_TURN
  {
    if x < 0 {
      var q, r := (-x) / FULL_TURN, (-x) % FULL_TURN;
      assert -x == q * FULL_TURN + r;
      if r == 0 {
        Remainder(x, -q, 0);
      } else {
        Remainder(x, -q - 1, FULL_TURN - r);
      }
    }
  }

  lemma {:induction false} Remainder(x: int, q: int, r: int)
    requires x == q * FULL_TURN + r && 0 <= r < FULL_TURN
    ensures x % FULL_TURN == r && x / FULL_TURN == q
  {
  }

  // ---------------------------------------------------------------------------------- 32 bits

  predicate FitsI32(x: int) {
    I32_MIN <= x <= I32_MAX
  }

  /** a weighted by its distance and b by the rest lies between the two. */
  lemma {:induction false} Between(a: int, b: int, offset: nat)
    requires offset <= PER_NODE && I16_MIN <= a <= I16_MAX && I16_MIN <= b <= I16_MAX
    ensures I16_MIN * PER_NODE <= a * PER_NODE + (b - a) * offset <= I16_MAX * PER_NODE
    ensures FitsI32((b - a) * offset)
  {
    assert a * PER_NODE + (b - a) * offset == a * (PER_NODE - offset) + b * offset;
    Scaled(a, PER_NODE - offset);
    Scaled(b, offset);
  }

  lemma {:induction false} Scaled(a: int, n: nat)
    requires I16_MIN <= a <= I16_MAX && n <= PER_NODE
    ensures I16_MIN * n <= a * n <= I16_MAX * n
    ensures -0x10_0000 <= a * n <= 0x10_0000
  {
    if n > 0 {
      Scaled(a, n - 1);
      assert a * n == a * (n - 1) + a;
    }
  }

  /** No table of 16-bit nodes, valid or not, makes any intermediate of the validation or of the
      correction leave 32 bits. */
  lemma {:induction false} NoOverflow(t: Table, raw: U16)
    ensures var index, offset := Normalized(raw) / PER_NODE, Normalized(raw) % PER_NODE;
            var first, second := t[index], t[(index + 1) % NODES];
            && FitsI32(first * PER_NODE) && FitsI32(second - first) && FitsI32((second - first) * offset)
            && FitsI32(first * PER_NODE + (second - first) * offset)
            && FitsI32(CorrectionScaled(Some(t), raw)) && FitsI32(Normalized(raw) * CENTIDEGREES_PER_TURN)
            && FitsI32(CorrectedScaled(Some(t), raw)) && FitsI32(CorrectedScaled(Some(t), raw) + FULL_TURN)
            && FitsI32(TruncatedRemainder(CorrectedScaled(Some(t), raw), FULL_TURN) + FULL_TURN)
  {
    var index, offset := Normalized(raw) / PER_NODE, Normalized(raw) % PER_NODE;
    Between(t[index], t[(index + 1) % NODES], offset);
    WrapIsModulo(CorrectedScaled(Some(t), raw));
  }

  // ----------------------------------------------------------------------------- the increments

  lemma {:induction false} SplitRaw(index: nat, offset: nat)
    requires index < NODES && offset < PER_NODE
    ensures var raw := index * PER_NODE + offset;
            Normalized(raw) == raw && raw / PER_NODE == index && raw % PER_NODE == offset
  {
  }

  lemma {:induction false} CorrectedIs(t: Table, raw: U16, index: nat, offset: nat)
    requires index < NODES && offset < PER_NODE
    requires Normalized(raw) == raw && raw / PER_NODE == index && raw % PER_NODE == offset
    ensures CorrectedScaled(Some(t), raw)
            == raw * CENTIDEGREES_PER_TURN + Interpolated(t[index], t[(index + 1) % NODES] - t[index], offset)
  {
    hide Normalized, Interpolated;
  }

  lemma {:induction false} CorrectedAt(t: Table, index: nat, offset: nat)
    requires index < NODES && offset < PER_NODE
    ensures CorrectedScaled(Some(t), index * PER_NODE + offset)
            == (index * PER_NODE + offset) * CENTIDEGREES_PER_TURN + t[index] * 4096 + Step(t, index) * offset * 128
  {
    hide CorrectedScaled, Step, Normalized, Interpolated;
    SplitRaw(index, offset);
    CorrectedIs(t, index * PER_NODE + offset, index, offset);
    StepIs(t, index);
    Expand(t[index], Step(t, index), offset);
  }

  lemma {:induction false} StepIs(t: Table, index: nat)
    requires index < NODES
    ensures Step(t, index) == t[(index + 1) % NODES] - t[index]
  {
  }

  lemma {:induction false} Expand(a: int, step: int, offset: nat)
    ensures Interpolated(a, step, offset) == a * 4096 + step * offset * 128
  {
    var product := step * offset;
    assert (a * PER_NODE + product) * (SCALE / PER_NODE) == a * 4096 + product * 128;
  }

  lemma {:induction false} OneMore(d: int, n: int)
    ensures d * (n + 1) * 128 == d * n * 128 + d * 128
  {
  }

  /** From one count to the next the corrected angle grows by 36000 plus 128 times the step of the
      node, also where the next node begins. */
  lemma {:induction false} Increment(t: Table, raw: U16)
    requires raw + 1 < COUNTS
    ensures CorrectedScaled(Some(t), raw + 1) - CorrectedScaled(Some(t), raw)
            == CENTIDEGREES_PER_TURN + 128 * Step(t, raw / PER_NODE)
  {
    var index, offset := raw / PER_NODE, raw % PER_NODE;
    assert raw == index * PER_NODE + offset;
    if offset + 1 < PER_NODE {
      IncrementInside(t, index, offset);
    } else {
      IncrementAcross(t, index);
    }
    hide *;
  }

  lemma {:induction false} IncrementInside(t: Table, index: nat, offset: nat)
    requires index < NODES && offset + 1 < PER_NODE
    ensures CorrectedScaled(Some(t), index * PER_NODE + offset + 1)
            - CorrectedScaled(Some(t), index * PER_NODE + offset)
            == CENTIDEGREES_PER_TURN + 128 * Step(t, index)
  {
    hide *;
    CorrectedAt(t, index, offset);
    CorrectedAt(t, index, offset + 1);
    OneMore(Step(t, index), offset);
  }

  lemma {:induction false} IncrementAcross(t: Table, index: nat)
    requires index + 1 < NODES
    ensures CorrectedScaled(Some(t), index * PER_NODE + 32) - CorrectedScaled(Some(t), index * PER_NODE + 31)
            == CENTIDEGREES_PER_TURN + 128 * Step(t, index)
  {
    hide CorrectedScaled;
    CorrectedAt(t, index, 31);
    CorrectedAt(t, index + 1, 0);
  }

  /** The same across the end of the turn. */
  lemma {:induction false} LastIncrement(t: Table)
    ensures CorrectedScaled(Some(t), 0) + FULL_TURN - CorrectedScaled(Some(t), COUNTS - 1)
            == CENTIDEGREES_PER_TURN + 128 * Step(t, NODES - 1)
  {
  }

  lemma {:induction false} IncrementPositiveIff(step: int)
    ensures CENTIDEGREES_PER_TURN + 128 * step > 0 <==> step >= LEAST_STEP
  {
  }

  /** The 4095 comparisons and the closing one accept exactly the tables whose 128 steps are valid. */
  method Validate(c: Calibration) returns (valid: bool)
    ensures valid == (c.metadata && StepsValid(c.table))
  {
    hide CorrectedScaled, CorrectionScaled, Interpolated, Normalized, Step, StepsValid;
    if !c.metadata {
      return false;
    }
    var table := Some(c.table);
    var previous := CorrectedScaled(table, 0);
    var first := previous;
    for raw := 1 to COUNTS
      invariant previous == CorrectedScaled(table, raw - 1)
      invariant forall r | 0 <= r < raw - 1 :: Step(c.table, r / PER_NODE) >= LEAST_STEP
    {
      var current := CorrectedScaled(table, raw);
      Increment(c.table, raw - 1);
      IncrementPositiveIff(Step(c.table, (raw - 1) / PER_NODE));
      if current <= previous {
        BadStep(c.table, (raw - 1) / PER_NODE);
        return false;
      }
      previous := current;
    }
    LastIncrement(c.table);
    IncrementPositiveIff(Step(c.table, NODES - 1));
    AllSteps(c.table);
    return first + FULL_TURN > previous;
  }

  lemma {:induction false} BadStep(t: Table, node: nat)
    requires node < NODES && Step(t, node) < LEAST_STEP
    ensures !StepsValid(t)
  {
  }

  lemma {:induction false} AllSteps(t: Table)
    requires forall r | 0 <= r < COUNTS - 1 :: Step(t, r / PER_NODE) >= LEAST_STEP
    ensures StepsValid(t) <==> Step(t, NODES - 1) >= LEAST_STEP
  {
    forall node | 0 <= node < NODES - 1 ensures Step(t, node) >= LEAST_STEP {
      assert (node * PER_NODE) / PER_NODE == node;
    }
  }

  // ------------------------------------------------------------------------- the unwrapped angle

  /** The corrected angle continued over all turns. */
  function Lift(t: Table, n: int): int {
    n / COUNTS * FULL_TURN + CorrectedScaled(Some(t), n % COUNTS)
  }

  lemma {:induction false} NextCount(n: int)
    ensures if n % COUNTS == COUNTS - 1 then (n + 1) / COUNTS == n / COUNTS + 1 && (n + 1) % COUNTS == 0
            else (n + 1) / COUNTS == n / COUNTS && (n + 1) % COUNTS == n % COUNTS + 1
  {
  }

  lemma {:induction false} LiftIncrement(t: Table, n: int)
    ensures Lift(t, n + 1) - Lift(t, n) == CENTIDEGREES_PER_TURN + 128 * Step(t, n % COUNTS / PER_NODE)
  {
    hide CorrectedScaled, Step;
    NextCount(n);
    if n % COUNTS == COUNTS - 1 {
      LastIncrement(t);
    } else {
      Increment(t, n % COUNTS);
    }
  }

  lemma {:induction false} LiftRises(t: Table, m: int, n: int)
    requires StepsValid(t) && m < n
    ensures Lift(t, m) < Lift(t, n)
    decreases n - m
  {
    hide Lift, Step;
    LiftIncrement(t, n - 1);
    assert 0 <= (n - 1) % COUNTS / PER_NODE < NODES;
    IncrementPositiveIff(Step(t, (n - 1) % COUNTS / PER_NODE));
    if m < n - 1 {
      LiftRises(t, m, n - 1);
    }
  }

  /** A table is accepted exactly when its unwrapped corrected angle is strictly increasing over all
      the integers. */
  lemma {:induction false} ValidIffLiftRises(t: Table)
    ensures StepsValid(t) <==> forall m: int, n: int :: m < n ==> Lift(t, m) < Lift(t, n)
  {
    hide Lift;
    if StepsValid(t) {
      forall m: int, n: int | m < n ensures Lift(t, m) < Lift(t, n) {
        LiftRises(t, m, n);
      }
    } else {
      hide Step;
      var node :| 0 <= node < NODES && Step(t, node) < LEAST_STEP;
      LiftIncrement(t, node * PER_NODE);
      assert node * PER_NODE % COUNTS / PER_NODE == node;
      IncrementPositiveIff(Step(t, node));
      assert Lift(t, node * PER_NODE + 1) <= Lift(t, node * PER_NODE);
    }
  }

  lemma {:induction false} CloseMultiples(x: int, y: int)
    requires x % FULL_TURN == y % FULL_TURN && x <= y < x + FULL_TURN
    ensures x == y
  {
    assert x == x / FULL_TURN * FULL_TURN + x % FULL_TURN;
    assert y == y / FULL_TURN * FULL_TURN + y % FULL_TURN;
  }

  lemma {:induction false} LiftOfTurn(t: Table, a: U16)
    requires a < COUNTS
    ensures Lift(t, a) == CorrectedScaled(Some(t), a)
    ensures Lift(t, a + COUNTS) == CorrectedScaled(Some(t), a) + FULL_TURN
  {
    assert (a + COUNTS) / COUNTS == 1 && (a + COUNTS) % COUNTS == a;
    hide CorrectedScaled;
  }

  /** With a valid table, different raw angles have different corrected angles on the circle. */
  lemma {:induction false} WrappedIsInjective(t: Table, a: U16, b: U16)
    requires StepsValid(t) && a < b < COUNTS
    ensures WrapTurn(CorrectedScaled(Some(t), a)) != WrapTurn(CorrectedScaled(Some(t), b))
  {
    hide CorrectedScaled, Lift, WrapTurn, StepsValid;
    LiftRises(t, a, b);
    LiftRises(t, b, a + COUNTS);
    LiftOfTurn(t, a);
    LiftOfTurn(t, b);
    WrapIsModulo(CorrectedScaled(Some(t), a));
    WrapIsModulo(CorrectedScaled(Some(t), b));
    if WrapTurn(CorrectedScaled(Some(t), a)) == WrapTurn(CorrectedScaled(Some(t), b)) {
      CloseMultiples(CorrectedScaled(Some(t), a), CorrectedScaled(Some(t), b));
    }
  }

  // ---------------------------------------------------------------- the same table in real degrees

  function Blended(first: real, second: real, fraction: real): real {
    first + (second - first) * fraction
  }

  function DegreesOf(t: Table, index: nat, offset: nat): real
    requires index < NODES
  {
    Blended(t[index] as real, t[(index + 1) % NODES] as real, offset as real / 32.0) * 0.01
  }

  /** The correction as the profile validator computes it, in exact arithmetic. */
  function CorrectionDegrees(t: Table, raw: nat): real {
    DegreesOf(t, raw % COUNTS / PER_NODE, raw % COUNTS % PER_NODE)
  }

  function MappedDegrees(t: Table, raw: nat): real {
    raw as real * (360.0 / 4096.0) + CorrectionDegrees(t, raw)
  }

  lemma {:induction false} PartsOf(raw: nat)
    requires raw < COUNTS
    ensures raw % COUNTS == raw && Normalized(raw) == raw && raw / PER_NODE < NODES && raw % PER_NODE < PER_NODE
  {
  }

  lemma {:induction false} MappedIs(t: Table, raw: nat, index: nat, offset: nat)
    requires raw % COUNTS == raw && raw / PER_NODE == index < NODES && raw % PER_NODE == offset
    ensures MappedDegrees(t, raw) == raw as real * (360.0 / 4096.0) + DegreesOf(t, index, offset)
  {
    hide DegreesOf;
  }

  /** Both validators look at the same angle. */
  lemma {:induction false} DegreesAreScaled(t: Table, raw: nat)
    requires raw < COUNTS
    ensures MappedDegrees(t, raw) == CorrectedScaled(Some(t), raw) as real / 409600.0
  {
    hide CorrectedScaled, MappedDegrees, DegreesOf, Interpolated, Normalized;
    PartsOf(raw);
    var index, offset := raw / PER_NODE, raw % PER_NODE;
    CorrectedIs(t, raw, index, offset);
    MappedIs(t, raw, index, offset);
    DegreesAt(t, index, offset);
    Turned(raw, Interpolated(t[index], t[(index + 1) % NODES] - t[index], offset));
  }

  lemma {:induction false} Turned(raw: nat, product: int)
    ensures raw as real * (360.0 / 4096.0) + product as real / 409600.0
            == (raw * CENTIDEGREES_PER_TURN + product) as real / 409600.0
  {
  }

  lemma {:induction false} DegreesAt(t: Table, index: nat, offset: nat)
    requires index < NODES
    ensures DegreesOf(t, index, offset)
            == Interpolated(t[index], t[(index + 1) % NODES] - t[index], offset) as real / 409600.0
  {
    hide Interpolated, Blended;
    Interpolation(t[index], t[(index + 1) % NODES], offset);
  }

  lemma {:induction false} Interpolation(first: int, second: int, offset: nat)
    ensures Blended(first as real, second as real, offset as real / 32.0) * 0.01
            == Interpolated(first, second - first, offset) as real / 409600.0
  {
    var step := second - first;
    var product := step * offset;
    assert product as real == step as real * offset as real;
    assert step as real == second as real - first as real;
    assert step as real * (offset as real / 32.0) == product as real / 32.0;
    assert ((first * 32 + product) * 128) as real == (first as real * 32.0 + product as real) * 128.0;
  }

  lemma {:induction false} ScaledOrder(x: int, y: int)
    ensures x as real / 409600.0 < y as real / 409600.0 <==> x < y
  {
  }

  /** The validator of the profile, in exact arithmetic, accepts the same tables. */
  method ValidateProfile(metadata: bool, t: Table) returns (valid: bool)
    ensures valid == (metadata && StepsValid(t))
  {
    hide CorrectedScaled, CorrectionScaled, Interpolated, Normalized, Step, StepsValid, CorrectionDegrees;
    if !metadata {
      return false;
    }
    var first := CorrectionDegrees(t, 0);
    DegreesAreScaled(t, 0);
    var previous := first;
    for raw := 1 to COUNTS
      invariant previous == CorrectedScaled(Some(t), raw - 1) as real / 409600.0
      invariant forall r | 0 <= r < raw - 1 :: Step(t, r / PER_NODE) >= LEAST_STEP
    {
      var mapped := MappedDegrees(t, raw);
      DegreesAreScaled(t, raw);
      ScaledOrder(CorrectedScaled(Some(t), raw - 1), CorrectedScaled(Some(t), raw));
      Increment(t, raw - 1);
      IncrementPositiveIff(Step(t, (raw - 1) / PER_NODE));
      if mapped <= previous {
        BadStep(t, (raw - 1) / PER_NODE);
        return false;
      }
      previous := mapped;
    }
    LastIncrement(t);
    IncrementPositiveIff(Step(t, NODES - 1));
    ScaledOrder(CorrectedScaled(Some(t), COUNTS - 1), CorrectedScaled(Some(t), 0) + FULL_TURN);
    AllSteps(t);
    return previous < first + 360.0;
  }
}
