/** The next deadline of a periodic poll on a 32-bit millisecond clock that wraps around. */
module PeriodicDeadline {
  import opened MachineIntegers
  import opened Prelude

  const HALF: nat := 0x8000_0000

  function Difference(a: U32, b: U32): U32 {
    (a - b) % TWO_32
  }

  /** The difference read as a signed number is not negative. */
  predicate TimeReached(now: U32, deadline: U32) {
    Difference(now, deadline) < HALF
  }

  /** The k-th deadline after `previous`. */
  function Slot(previous: U32, period: U32, k: nat): U32 {
    (previous + k * period) % TWO_32
  }

  lemma {:induction false} SlotStep(previous: U32, period: U32, k: nat)
    ensures Slot(previous, period, k + 1) == (Slot(previous, period, k) + period) % TWO_32
  {
    assert previous + (k + 1) * period == previous + k * period + period;
    AddModulo(previous + k * period, period);
  }

  /** k is the first slot, from the first one on, that the clock has not reached. */
  ghost predicate FirstUnreached(previous: U32, now: U32, period: U32, k: nat) {
    && k >= 1 && !TimeReached(now, Slot(previous, period, k))
    && forall j | 1 <= j < k :: TimeReached(now, Slot(previous, period, j))
  }

  /** How far the reached half goes on: down to the clock for a period below half the range, and for
      a longer one, which is a step backwards, up to the other end. */
  function Remaining(now: U32, deadline: U32, period: U32): nat {
    if !TimeReached(now, deadline) then 0
    else if period < HALF then Difference(now, deadline) + 1
    else HALF - Difference(now, deadline)
  }

  /** Every step comes closer to the end of the reached half or leaves it. */
  lemma {:induction false} StepComesCloser(now: U32, deadline: U32, period: U32)
    requires period > 0 && TimeReached(now, deadline)
    ensures Remaining(now, (deadline + period) % TWO_32, period) < Remaining(now, deadline, period)
  {
    var r := Difference(now, deadline);
    var next := (deadline + period) % TWO_32;
    assert Difference(now, next) == if r >= period then r - period else r - period + TWO_32;
  }

  /** Whatever the clock and the period, the loop ends, and it ends at the first slot not reached. */
  method NextPeriodicDeadline(previous: U32, now: U32, period: U32) returns (next: U32)
    ensures period == 0 ==> next == now
    ensures period > 0 ==>
              exists k: nat :: next == Slot(previous, period, k) && FirstUnreached(previous, now, period, k)
  {
    if period == 0 {
      return now;
    }
    next := (previous + period) % TWO_32;
    ghost var k: nat := 1;
    assert next == Slot(previous, period, 1);
    hide Slot, TimeReached, Difference, Remaining;
    while TimeReached(now, next)
      invariant k >= 1 && next == Slot(previous, period, k)
      invariant forall j | 1 <= j < k :: TimeReached(now, Slot(previous, period, j))
      decreases Remaining(now, next, period)
    {
      SlotStep(previous, period, k);
      StepComesCloser(now, next, period);
      next := (next + period) % TWO_32;
      k := k + 1;
    }
    assert FirstUnreached(previous, now, period, k);
  }

  // ------------------------------------------------------------------------------- in true time

  /** The signed comparison is right as long as the two times are less than half the range apart. */
  lemma {:induction false} ReachedInTrueTime(now: nat, deadline: nat)
    requires now - deadline < HALF && deadline - now <= HALF
    ensures TimeReached(now % TWO_32, deadline % TWO_32) <==> deadline <= now
  {
    var a, b := now / TWO_32, deadline / TWO_32;
    assert now == a * TWO_32 + now % TWO_32 && deadline == b * TWO_32 + deadline % TWO_32;
    var d := now % TWO_32 - deadline % TWO_32;
    assert d == now - deadline - (a - b) * TWO_32;
    assert d < TWO_32 && -d < TWO_32;
  }

  lemma {:induction false} SlotInTrueTime(previous: nat, period: nat, k: nat)
    requires period < TWO_32
    ensures Slot(previous % TWO_32, period, k) == (previous + k * period) % TWO_32
  {
    AddModulo(previous, k * period);
  }

  lemma {:induction false} SlotsRise(previous: nat, period: nat, j: nat, k: nat)
    requires j <= k
    ensures previous + j * period <= previous + k * period
    ensures k > 0 ==> previous + (k - 1) * period + period == previous + k * period
  {
    assert (k - j) * period >= 0;
  }

  /** k is the least k >= 1 whose true deadline lies after the true time. */
  predicate LeastAfter(previous: nat, now: nat, period: nat, k: nat) {
    k >= 1 && previous + k * period > now && (k == 1 || previous + (k - 1) * period <= now)
  }

  /** With the clock at or after the previous deadline by less than half the range, the wrapped
      computation finds the true next deadline exactly when the period ends no more than half the
      range after now; a longer one would be taken for a deadline long past. */
  lemma {:induction false} FindsNextDeadlineIff(previous: nat, now: nat, period: nat)
    requires 0 < period < TWO_32 && previous <= now < previous + HALF
    ensures (forall k: nat ::
               FirstUnreached(previous % TWO_32, now % TWO_32, period, k) <==> LeastAfter(previous, now, period, k))
            <==> period <= HALF + (now - previous)
  {
    hide FirstUnreached;
    if period <= HALF + (now - previous) {
      forall k: nat
        ensures FirstUnreached(previous % TWO_32, now % TWO_32, period, k) <==> LeastAfter(previous, now, period, k)
      {
        FirstUnreachedIsLeastAfter(previous, now, period, k);
      }
    } else {
      TooLongIsReached(previous, now, period);
      assert LeastAfter(previous, now, period, 1);
    }
  }

  /** So it does for every period that the driver factory admits: for telemetry it refuses the largest
      signed number and everything above. */
  lemma {:induction false} AdmittedPeriodsAreRight(previous: nat, now: nat, period: nat)
    requires 0 < period < HALF - 1 && previous <= now < previous + HALF
    ensures forall k: nat ::
              FirstUnreached(previous % TWO_32, now % TWO_32, period, k) <==> LeastAfter(previous, now, period, k)
  {
    FindsNextDeadlineIff(previous, now, period);
  }

  lemma {:induction false} TooLongIsReached(previous: nat, now: nat, period: nat)
    requires period < TWO_32 && previous <= now && HALF + (now - previous) < period
    ensures !FirstUnreached(previous % TWO_32, now % TWO_32, period, 1)
  {
    SlotInTrueTime(previous, period, 1);
    ReachedInTrueTime(now + TWO_32, previous + period);
    assert (now + TWO_32) % TWO_32 == now % TWO_32;
  }

  /** The first unreached slot is then the least multiple of the period after now. */
  lemma {:induction false} FirstUnreachedIsLeastAfter(previous: nat, now: nat, period: nat, k: nat)
    requires 0 < period < TWO_32 && previous <= now < previous + HALF && period <= HALF + (now - previous)
    ensures FirstUnreached(previous % TWO_32, now % TWO_32, period, k) <==> LeastAfter(previous, now, period, k)
  {
    hide TimeReached, Slot;
    if LeastAfter(previous, now, period, k) {
      ReachedWhileBefore(previous, now, period, k);
      forall j | 1 <= j < k ensures TimeReached(now % TWO_32, Slot(previous % TWO_32, period, j)) {
        SlotsRise(previous, period, j, k - 1);
        ReachedWhileBefore(previous, now, period, j);
      }
    }
    if FirstUnreached(previous % TWO_32, now % TWO_32, period, k) {
      UnreachedIsLeast(previous, now, period, k);
    }
  }

  lemma {:induction false} ReachedWhileBefore(previous: nat, now: nat, period: nat, k: nat)
    requires 0 < period < TWO_32 && previous <= now < previous + HALF && period <= HALF + (now - previous)
    requires k >= 1
    requires k == 1 || previous + (k - 1) * period <= now
    ensures TimeReached(now % TWO_32, Slot(previous % TWO_32, period, k)) <==> previous + k * period <= now
  {
    SlotInTrueTime(previous, period, k);
    SlotsRise(previous, period, 0, k);
    if k > 1 {
      SlotsRise(previous, period, 1, k - 1);
    }
    assert k == 1 ==> k * period == period;
    var product := k * period;
    assert previous + product - now <= HALF;
    ReachedInTrueTime(now, previous + product);
    hide *;
  }

  /** By walking up to the first deadline after now. */
  lemma {:induction false} UnreachedIsLeast(previous: nat, now: nat, period: nat, k: nat)
    requires 0 < period < TWO_32 && previous <= now < previous + HALF && period <= HALF + (now - previous)
    requires FirstUnreached(previous % TWO_32, now % TWO_32, period, k)
    ensures LeastAfter(previous, now, period, k)
  {
    hide TimeReached, Slot;
    var j := 1;
    while j < k
      invariant 1 <= j <= k && (j == 1 || previous + (j - 1) * period <= now)
    {
      ReachedWhileBefore(previous, now, period, j);
      j := j + 1;
    }
    ReachedWhileBefore(previous, now, period, k);
  }
}
