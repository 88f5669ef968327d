/** Pool-adjacent-violators: the least-squares fit of a list of numbers by a non-decreasing one. */
module IsotonicFit {
  /** Numbers start..end inclusive, pooled into their mean. */
  datatype Block = Block(start: nat, end: nat, weight: real, mean: real)

  /** The sum of the first k numbers. */
  function Prefix(s: seq<real>, k: nat): real
    requires k <= |s|
  {
    if k == 0 then 0.0 else Prefix(s, k - 1) + s[k - 1]
  }

  predicate NonDecreasing(s: seq<real>) {
    forall i, j | 0 <= i <= j < |s| :: s[i] <= s[j]
  }

  function Product(x: real, y: real): real {
    x * y
  }

  function Squared(x: real): real {
    Product(x, x)
  }

  /** The sum of squared differences over the first k places. */
  function CostUpTo(a: seq<real>, b: seq<real>, k: nat): real
    requires k <= |a| == |b|
  {
    if k == 0 then 0.0 else CostUpTo(a, b, k - 1) + Squared(a[k - 1] - b[k - 1])
  }

  function Cost(a: seq<real>, b: seq<real>): real
    requires |a| == |b|
  {
    CostUpTo(a, b, |a|)
  }

  /** What characterises the fit: it is non-decreasing, no prefix of it sums to more than the data,
      and wherever it rises, and at its end, the sums agree. */
  ghost predicate IsFit(values: seq<real>, fit: seq<real>) {
    && |fit| == |values| && NonDecreasing(fit)
    && (forall k | 0 <= k <= |fit| :: Prefix(fit, k) <= Prefix(values, k))
    && Prefix(fit, |fit|) == Prefix(values, |fit|)
    && (forall k | 0 < k < |fit| && fit[k - 1] != fit[k] :: Prefix(fit, k) == Prefix(values, k))
  }

  // ------------------------------------------------------------------------------ optimality

  /** The sum over the first k places of (value - fit) * (fit - other). */
  function CrossUpTo(values: seq<real>, fit: seq<real>, other: seq<real>, k: nat): real
    requires k <= |values| == |fit| == |other|
  {
    if k == 0 then 0.0
    else CrossUpTo(values, fit, other, k - 1) + (values[k - 1] - fit[k - 1]) * (fit[k - 1] - other[k - 1])
  }

  lemma {:induction false} Square(v: real, f: real, z: real)
    ensures Squared(v - z) == Squared(v - f) + Squared(f - z) + 2.0 * ((v - f) * (f - z))
  {
  }

  lemma {:induction false} CostSplits(values: seq<real>, fit: seq<real>, other: seq<real>, k: nat)
    requires k <= |values| == |fit| == |other|
    ensures CostUpTo(values, other, k) ==
              CostUpTo(values, fit, k) + CostUpTo(fit, other, k) + 2.0 * CrossUpTo(values, fit, other, k)
  {
    if k > 0 {
      hide Squared;
      CostSplits(values, fit, other, k - 1);
      Square(values[k - 1], fit[k - 1], other[k - 1]);
    }
  }

  lemma {:induction false} ProductSign(p: real, x: real)
    requires p >= 0.0 && x >= 0.0
    ensures p * x >= 0.0
  {
  }

  lemma {:induction false} PositiveProduct(x: real, y: real)
    requires x > 0.0 && y > 0.0
    ensures Product(x, y) > 0.0
  {
  }

  /** One step of summation by parts: p and q are the residuals before and after it, r the residual
      of this place, d and e the differences fit - other before and at it. */
  lemma {:induction false} AbelStep(cross: real, next: real, p: real, q: real, r: real, d: real, e: real)
    requires cross >= p * d && p * (d - e) >= 0.0
    requires q == p + r && next == cross + r * e
    ensures next >= q * e
  {
    assert q * e == p * e + r * e;
    assert p * (d - e) == p * d - p * e;
  }

  function Residual(values: seq<real>, fit: seq<real>, k: nat): real
    requires k <= |values| == |fit|
  {
    Prefix(values, k) - Prefix(fit, k)
  }

  lemma {:induction false} ResidualStep(values: seq<real>, fit: seq<real>, k: nat)
    requires 0 < k <= |values| == |fit|
    ensures Residual(values, fit, 0) == 0.0
    ensures Residual(values, fit, k) == Residual(values, fit, k - 1) + (values[k - 1] - fit[k - 1])
  {
  }

  /** Where the fit rises the residual vanishes, so only the rise of the other list counts. */
  lemma {:induction false} RiseCounts(values: seq<real>, fit: seq<real>, other: seq<real>, k: nat)
    requires IsFit(values, fit) && |other| == |fit| && NonDecreasing(other) && 0 < k < |fit|
    ensures Residual(values, fit, k) * ((fit[k - 1] - other[k - 1]) - (fit[k] - other[k])) >= 0.0
  {
    hide Prefix;
    var p := Residual(values, fit, k);
    if fit[k - 1] == fit[k] {
      ProductSign(p, other[k] - other[k - 1]);
      assert (fit[k - 1] - other[k - 1]) - (fit[k] - other[k]) == other[k] - other[k - 1];
    } else {
      assert p == 0.0;
    }
  }

  lemma {:induction false} CrossBound(values: seq<real>, fit: seq<real>, other: seq<real>, k: nat)
    requires |fit| == |values| == |other| && IsFit(values, fit) && NonDecreasing(other) && 0 < k <= |fit|
    ensures CrossUpTo(values, fit, other, k) >= Residual(values, fit, k) * (fit[k - 1] - other[k - 1])
  {
    hide IsFit, NonDecreasing, Residual;
    ResidualStep(values, fit, k);
    if k > 1 {
      CrossBound(values, fit, other, k - 1);
      RiseCounts(values, fit, other, k - 1);
      AbelStep(CrossUpTo(values, fit, other, k - 1), CrossUpTo(values, fit, other, k),
               Residual(values, fit, k - 1), Residual(values, fit, k), values[k - 1] - fit[k - 1],
               fit[k - 2] - other[k - 2], fit[k - 1] - other[k - 1]);
    } else {
      assert CrossUpTo(values, fit, other, 0) == 0.0;
    }
  }

  /** Any non-decreasing list costs at least as much as the fit, and more by its distance from it. */
  lemma {:induction false} FitIsOptimal(values: seq<real>, fit: seq<real>, other: seq<real>)
    requires IsFit(values, fit) && |other| == |fit| && NonDecreasing(other)
    ensures Cost(values, other) >= Cost(values, fit) + Cost(fit, other)
  {
    CostSplits(values, fit, other, |fit|);
    if |fit| > 0 {
      CrossBound(values, fit, other, |fit|);
      assert Residual(values, fit, |fit|) == 0.0;
    }
  }

  lemma {:induction false} SquareOfPositive(d: real)
    requires d > 0.0
    ensures Squared(d) > 0.0
  {
    hide Product;
    PositiveProduct(d, d);
  }

  lemma {:induction false} SquareIsEven(d: real)
    ensures Squared(-d) == Squared(d)
  {
  }

  lemma {:induction false} SquareSign(d: real)
    ensures d == 0.0 || Squared(d) > 0.0
    ensures Squared(d) >= 0.0
  {
    if d > 0.0 {
      SquareOfPositive(d);
    } else if d < 0.0 {
      SquareOfPositive(-d);
      SquareIsEven(d);
    } else {
      assert Squared(0.0) == 0.0;
    }
  }

  lemma {:induction false} CostIsDistance(a: seq<real>, b: seq<real>, k: nat)
    requires k <= |a| == |b|
    ensures CostUpTo(a, b, k) >= 0.0
    ensures CostUpTo(a, b, k) <= 0.0 ==> forall i | 0 <= i < k :: a[i] == b[i]
  {
    hide Squared;
    if k > 0 {
      CostIsDistance(a, b, k - 1);
      SquareSign(a[k - 1] - b[k - 1]);
    }
  }

  lemma {:induction false} NoCost(a: seq<real>, k: nat)
    requires k <= |a|
    ensures CostUpTo(a, a, k) == 0.0
  {
    if k > 0 {
      NoCost(a, k - 1);
    }
  }

  /** The fit is the only non-decreasing list that costs as little. */
  lemma {:induction false} FitIsUnique(values: seq<real>, fit: seq<real>, other: seq<real>)
    requires IsFit(values, fit) && |other| == |fit| && NonDecreasing(other)
    requires Cost(values, other) <= Cost(values, fit)
    ensures other == fit
  {
    FitIsOptimal(values, fit, other);
    CostIsDistance(fit, other, |fit|);
  }

  /** Data that is already non-decreasing is its own fit. */
  lemma {:induction false} SortedIsUnchanged(values: seq<real>, fit: seq<real>)
    requires IsFit(values, fit) && NonDecreasing(values)
    ensures fit == values
  {
    NoCost(values, |values|);
    CostIsDistance(values, fit, |values|);
    FitIsUnique(values, fit, values);
  }

  lemma {:induction false} ShiftedPrefix(s: seq<real>, t: seq<real>, c: real, k: nat)
    requires k <= |s| == |t| && forall i | 0 <= i < |s| :: t[i] == s[i] + c
    ensures Prefix(t, k) == Prefix(s, k) + c * k as real
  {
    if k > 0 {
      ShiftedPrefix(s, t, c, k - 1);
    }
  }

  /** The fit moves with the data. */
  lemma {:induction false} ShiftedFit(values: seq<real>, fit: seq<real>, c: real)
    requires IsFit(values, fit)
    ensures IsFit(seq(|values|, i requires 0 <= i < |values| => values[i] + c),
                  seq(|values|, i requires 0 <= i < |values| => fit[i] + c))
  {
    var v := seq(|values|, i requires 0 <= i < |values| => values[i] + c);
    var f := seq(|values|, i requires 0 <= i < |values| => fit[i] + c);
    forall k | 0 <= k <= |values|
      ensures Prefix(v, k) - Prefix(f, k) == Prefix(values, k) - Prefix(fit, k)
    {
      ShiftedPrefix(values, v, c, k);
      ShiftedPrefix(fit, f, c, k);
    }
  }

  // ----------------------------------------------------------------------------- the algorithm

  /** A block carries the mean of its numbers, and no prefix of the block has a smaller mean. */
  ghost predicate Pooled(values: seq<real>, b: Block) {
    && b.start <= b.end < |values|
    && b.weight == (b.end + 1 - b.start) as real
    && Prefix(values, b.end + 1) - Prefix(values, b.start) == Product(b.mean, b.weight)
    && forall k | b.start <= k <= b.end + 1 ::
         Prefix(values, k) - Prefix(values, b.start) >= Product(b.mean, (k - b.start) as real)
  }

  /** The blocks cover the first n numbers without gap or overlap. */
  ghost predicate Tiles(values: seq<real>, blocks: seq<Block>, n: nat) {
    && n <= |values|
    && (forall b | 0 <= b < |blocks| :: Pooled(values, blocks[b]))
    && (blocks == [] ==> n == 0)
    && (blocks != [] ==> blocks[0].start == 0 && blocks[|blocks| - 1].end + 1 == n)
    && (forall b | 0 < b < |blocks| :: blocks[b].start == blocks[b - 1].end + 1)
  }

  predicate Rising(blocks: seq<Block>) {
    forall b | 0 < b < |blocks| :: blocks[b - 1].mean <= blocks[b].mean
  }

  function Merged(left: Block, right: Block): Block
    requires left.weight + right.weight > 0.0
  {
    var weight := left.weight + right.weight;
    Block(left.start, right.end, weight, (Product(left.mean, left.weight) + Product(right.mean, right.weight)) / weight)
  }

  lemma {:induction false} PositiveFactor(x: real, y: real, p: real, q: real)
    requires y > 0.0 && x * y == p * q && p > 0.0 && q > 0.0
    ensures x > 0.0
  {
    PositiveProduct(p, q);
    if x <= 0.0 {
      ProductSign(-x, y);
    }
  }

  /** The mean m of a over w numbers and a smaller b over u numbers lies between the two. */
  lemma {:induction false} MeanBetween(a: real, w: real, b: real, u: real, m: real)
    requires w > 0.0 && u > 0.0 && a > b && Product(m, w + u) == Product(a, w) + Product(b, u)
    ensures b < m < a
  {
    assert (m - b) * (w + u) == (a - b) * w;
    assert (a - m) * (w + u) == (a - b) * u;
    PositiveFactor(m - b, w + u, a - b, w);
    PositiveFactor(a - m, w + u, a - b, u);
  }

  /** And a prefix that ends t numbers into the second part keeps a mean no smaller. */
  lemma {:induction false} MeanOfPrefix(a: real, w: real, b: real, u: real, m: real, t: real, n: real)
    requires Product(m, w + u) == Product(a, w) + Product(b, u) && b <= m && t <= u && n == w + t
    ensures Product(a, w) + Product(b, t) >= Product(m, n)
  {
    ProductSign(m - b, u - t);
    assert a * w + b * t - m * (w + t) == (m - b) * (u - t);
  }

  lemma {:induction false} ScaleDown(a: real, m: real, n: real)
    requires m <= a && n >= 0.0
    ensures Product(m, n) <= Product(a, n)
  {
  }

  lemma {:induction false} Quotient(x: real, y: real)
    requires y != 0.0
    ensures Product(x / y, y) == x
  {
  }

  lemma {:induction false} PooledSum(values: seq<real>, b: Block)
    requires Pooled(values, b)
    ensures b.start <= b.end < |values| && b.weight == (b.end + 1 - b.start) as real > 0.0
    ensures Prefix(values, b.end + 1) - Prefix(values, b.start) == Product(b.mean, b.weight)
  {
  }

  lemma {:induction false} PooledPrefix(values: seq<real>, b: Block, k: nat, n: real)
    requires Pooled(values, b) && b.start <= k <= b.end + 1 && n == (k - b.start) as real
    ensures Prefix(values, k) - Prefix(values, b.start) >= Product(b.mean, n)
  {
  }

  lemma {:induction false} MergedPrefix(values: seq<real>, left: Block, right: Block, m: real, k: nat, n: real)
    requires Pooled(values, left) && Pooled(values, right) && right.start == left.end + 1
    requires left.mean > right.mean
    requires Product(m, left.weight + right.weight)
             == Product(left.mean, left.weight) + Product(right.mean, right.weight)
    requires left.start <= k <= right.end + 1 && n == (k - left.start) as real
    ensures Prefix(values, k) - Prefix(values, left.start) >= Product(m, n)
  {
    hide Product, Pooled, Prefix;
    PooledSum(values, left);
    PooledSum(values, right);
    MeanBetween(left.mean, left.weight, right.mean, right.weight, m);
    if k <= left.end + 1 {
      PooledPrefix(values, left, k, n);
      ScaleDown(left.mean, m, n);
    } else {
      var t := (k - right.start) as real;
      PooledPrefix(values, right, k, t);
      MeanOfPrefix(left.mean, left.weight, right.mean, right.weight, m, t, n);
    }
  }

  lemma {:induction false} MergeKeepsPooled(values: seq<real>, left: Block, right: Block)
    requires Pooled(values, left) && Pooled(values, right)
    requires right.start == left.end + 1 && left.mean > right.mean
    ensures left.weight + right.weight > 0.0 && Pooled(values, Merged(left, right))
  {
    hide Prefix, Product;
    PooledSum(values, left);
    PooledSum(values, right);
    var m := Merged(left, right).mean;
    Quotient(Product(left.mean, left.weight) + Product(right.mean, right.weight), left.weight + right.weight);
    forall k | left.start <= k <= right.end + 1
      ensures Prefix(values, k) - Prefix(values, left.start) >= Product(m, (k - left.start) as real)
    {
      MergedPrefix(values, left, right, m, k, (k - left.start) as real);
    }
  }

  lemma {:induction false} PooledAlone(values: seq<real>, i: nat)
    requires i < |values|
    ensures Pooled(values, Block(i, i, 1.0, values[i]))
  {
    forall k | i <= k <= i + 1
      ensures Prefix(values, k) - Prefix(values, i) >= Product(values[i], (k - i) as real)
    {
      assert k == i || k == i + 1;
    }
  }

  lemma {:induction false} MergeKeepsTiles(values: seq<real>, blocks: seq<Block>, n: nat)
    requires |blocks| > 1 && Tiles(values, blocks, n)
    requires blocks[|blocks| - 2].mean > blocks[|blocks| - 1].mean
    ensures blocks[|blocks| - 2].weight + blocks[|blocks| - 1].weight > 0.0
    ensures Tiles(values, blocks[..|blocks| - 2] + [Merged(blocks[|blocks| - 2], blocks[|blocks| - 1])], n)
  {
    hide Prefix, Pooled, Product;
    MergeKeepsPooled(values, blocks[|blocks| - 2], blocks[|blocks| - 1]);
  }

  method Pool(values: seq<real>) returns (blocks: seq<Block>)
    ensures Tiles(values, blocks, |values|) && Rising(blocks)
  {
    hide Prefix, Pooled, Product, Merged;
    blocks := [];
    for index := 0 to |values|
      invariant Tiles(values, blocks, index) && Rising(blocks)
    {
      PooledAlone(values, index);
      blocks := blocks + [Block(index, index, 1.0, values[index])];
      while |blocks| > 1 && blocks[|blocks| - 2].mean > blocks[|blocks| - 1].mean
        invariant |blocks| > 0 && Tiles(values, blocks, index + 1) && Rising(blocks[..|blocks| - 1])
      {
        var left, right := blocks[|blocks| - 2], blocks[|blocks| - 1];
        MergeKeepsTiles(values, blocks, index + 1);
        blocks := blocks[..|blocks| - 2] + [Merged(left, right)];
      }
    }
  }

  /** The blocks spread out: every place has the mean of its block. */
  ghost predicate Spread(blocks: seq<Block>, fit: seq<real>) {
    forall b, i | 0 <= b < |blocks| && blocks[b].start <= i <= blocks[b].end && i < |fit| ::
      fit[i] == blocks[b].mean
  }

  lemma {:induction false} Distribute(m: real, n: real)
    ensures Product(m, n) + m == Product(m, n + 1.0)
    ensures Product(m, 0.0) == 0.0
  {
  }

  lemma {:induction false} SumInBlock(fit: seq<real>, b: Block, k: nat, n: real)
    requires b.start <= k <= b.end + 1 <= |fit| && n == (k - b.start) as real
    requires forall i | b.start <= i <= b.end :: fit[i] == b.mean
    ensures Prefix(fit, k) == Prefix(fit, b.start) + Product(b.mean, n)
  {
    hide Product;
    Distribute(b.mean, n - 1.0);
    if k > b.start {
      SumInBlock(fit, b, k - 1, n - 1.0);
    }
  }

  lemma {:induction false} WholeBlock(fit: seq<real>, b: Block)
    requires b.start <= b.end < |fit| && b.weight == (b.end + 1 - b.start) as real
    requires forall i | b.start <= i <= b.end :: fit[i] == b.mean
    ensures Prefix(fit, b.end + 1) == Prefix(fit, b.start) + Product(b.mean, b.weight)
  {
    SumInBlock(fit, b, b.end + 1, b.weight);
  }

  /** The sums agree where a block starts and where it ends. */
  lemma {:induction false} SumsAgreeAtBlock(values: seq<real>, blocks: seq<Block>, fit: seq<real>, b: nat)
    requires Tiles(values, blocks, |values|) && |fit| == |values| && Spread(blocks, fit) && b < |blocks|
    ensures Prefix(fit, blocks[b].start) == Prefix(values, blocks[b].start)
    ensures Prefix(fit, blocks[b].end + 1) == Prefix(values, blocks[b].end + 1)
  {
    hide Pooled, Product;
    if b > 0 {
      SumsAgreeAtBlock(values, blocks, fit, b - 1);
    }
    PooledSum(values, blocks[b]);
    WholeBlock(fit, blocks[b]);
  }

  lemma {:induction false} BlockOf(values: seq<real>, blocks: seq<Block>, i: nat, n: nat) returns (b: nat)
    requires Tiles(values, blocks, |values|) && n <= |blocks|
    requires i < if n == 0 then 0 else blocks[n - 1].end + 1
    ensures b < n && blocks[b].start <= i <= blocks[b].end
  {
    hide Pooled;
    if i >= blocks[n - 1].start {
      b := n - 1;
    } else {
      b := BlockOf(values, blocks, i, n - 1);
    }
  }

  lemma {:induction false} BlocksInOrder(blocks: seq<Block>, b: nat, c: nat)
    requires Rising(blocks) && b <= c < |blocks|
    ensures blocks[b].mean <= blocks[c].mean
  {
    if b < c {
      BlocksInOrder(blocks, b, c - 1);
    }
  }

  lemma {:induction false} StartsInOrder(values: seq<real>, blocks: seq<Block>, b: nat, c: nat)
    requires Tiles(values, blocks, |values|) && b < c < |blocks|
    ensures blocks[b].end < blocks[c].start
  {
    if b < c - 1 {
      StartsInOrder(values, blocks, b, c - 1);
    }
  }

  lemma {:induction false} SpreadIsNonDecreasing(values: seq<real>, blocks: seq<Block>, fit: seq<real>)
    requires Tiles(values, blocks, |values|) && Rising(blocks) && |fit| == |values| && Spread(blocks, fit)
    ensures NonDecreasing(fit)
  {
    hide Pooled;
    forall i, j | 0 <= i <= j < |fit| ensures fit[i] <= fit[j] {
      var b := BlockOf(values, blocks, i, |blocks|);
      var c := BlockOf(values, blocks, j, |blocks|);
      if c < b {
        StartsInOrder(values, blocks, c, b);
      }
      BlocksInOrder(blocks, b, c);
    }
  }

  lemma {:induction false} SpreadIsFit(values: seq<real>, blocks: seq<Block>, fit: seq<real>)
    requires Tiles(values, blocks, |values|) && Rising(blocks) && |fit| == |values| && Spread(blocks, fit)
    ensures IsFit(values, fit)
  {
    hide Product, Pooled, Rising, NonDecreasing;
    SpreadIsNonDecreasing(values, blocks, fit);
    forall k | 0 < k <= |fit|
      ensures Prefix(fit, k) <= Prefix(values, k)
      ensures k == |fit| || fit[k - 1] != fit[k] ==> Prefix(fit, k) == Prefix(values, k)
    {
      var b := BlockOf(values, blocks, k - 1, |blocks|);
      SumsAgreeAtBlock(values, blocks, fit, b);
      PooledSum(values, blocks[b]);
      var n := (k - blocks[b].start) as real;
      SumInBlock(fit, blocks[b], k, n);
      PooledPrefix(values, blocks[b], k, n);
      if k <= blocks[b].end {
        assert fit[k] == fit[k - 1];
      }
    }
  }

  /** The fit of the data: the unique non-decreasing list of least cost, with the sum of the data. */
  method IsotonicNonDecreasing(values: seq<real>) returns (fitted: seq<real>)
    ensures IsFit(values, fitted)
    ensures |fitted| == |values| && NonDecreasing(fitted)
    ensures Prefix(fitted, |values|) == Prefix(values, |values|)
    ensures forall other: seq<real> | |other| == |values| && NonDecreasing(other) ::
              Cost(values, fitted) <= Cost(values, other)
              && (Cost(values, other) <= Cost(values, fitted) ==> other == fitted)
    ensures NonDecreasing(values) ==> fitted == values
  {
    if |values| == 0 {
      fitted := [];
    } else {
      var blocks := Pool(values);
      var places := new real[|values|](_ => 0.0);
      for b := 0 to |blocks|
        invariant forall c, i | 0 <= c < b && blocks[c].start <= i <= blocks[c].end :: places[i] == blocks[c].mean
        modifies places
      {
        ghost var before := places[..];
        forall c | 0 <= c < b ensures blocks[c].end < blocks[b].start {
          StartsInOrder(values, blocks, c, b);
        }
        hide Pooled;
        for index := blocks[b].start to blocks[b].end + 1
          invariant forall i | blocks[b].start <= i < index :: places[i] == blocks[b].mean
          invariant forall i | 0 <= i < blocks[b].start :: places[i] == before[i]
          modifies places
        {
          places[index] := blocks[b].mean;
        }
      }
      fitted := places[..];
      SpreadIsFit(values, blocks, fitted);
    }
    hide Pooled;
    forall other: seq<real> | |other| == |values| && NonDecreasing(other)
      ensures Cost(values, fitted) <= Cost(values, other)
      ensures Cost(values, other) <= Cost(values, fitted) ==> other == fitted
    {
      FitIsOptimal(values, fitted, other);
      CostIsDistance(fitted, other, |fitted|);
      if Cost(values, other) <= Cost(values, fitted) {
        FitIsUnique(values, fitted, other);
      }
    }
    if NonDecreasing(values) {
      SortedIsUnchanged(values, fitted);
    }
  }
}
