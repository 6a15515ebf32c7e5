/** Risk analytics over a pool's state (`RiskManagement`).

    Every query looks the pair's pool up in the registry, reads its
    `get_pool_state()` and evaluates an expression over it; nothing is
    changed. The queries are functions of a `PoolState`, and the class only
    supplies the lookup. The Monte-Carlo price changes of `calculate_var` are
    an input, and `numpy.percentile` is modelled by its default linear
    interpolation between the order statistics. */
module Risk {
  import opened Numeric
  import opened Symbols
  import opened LiquidityPools
  import opened Registry

  /** The default confidence level of `calculate_var`. */
  const DefaultConfidence: real := 0.95
  /** The default risk factor of `dynamic_position_sizing` (2% of the pool). */
  const DefaultRiskFactor: real := 0.02

  // ---------------------------------------------------------------------------
  // Liquidity returns

  /** The value, in units of token A, of the reserves held by an LP with
      pool share `share` when one unit of B is worth `1 / priceRatio` of A. */
  function HeldValue(s: PoolState, share: real, priceRatio: real): real
    requires priceRatio != 0.0
  {
    share * s.tokenAReserve + share * s.tokenBReserve / priceRatio
  }

  /** The value, in units of token A, of the investment `(i0, i1)`. */
  function InvestedValue(investment: (real, real), priceRatio: real): real
    requires priceRatio != 0.0
  {
    investment.0 + investment.1 / priceRatio
  }

  /** `calculate_liquidity_returns`: the percentage by which the LP's share of
      the reserves is worth more than the investment. The share is
      `sqrt(i0 * i1)` over the LP supply; `root` is that square root. */
  function LiquidityReturns(s: PoolState, investment: (real, real), priceRatio: real, root: real): Result<real>
    requires 0.0 <= investment.0 * investment.1 ==> IsSqrt(investment.0 * investment.1, root)
  {
    if investment.0 * investment.1 < 0.0 then Err(MathDomain)
    else if s.totalLpTokens == 0.0 || priceRatio == 0.0 then Err(ZeroDivision)
    else
      var share := root / s.totalLpTokens;
      var initial := InvestedValue(investment, priceRatio);
      if initial == 0.0 then Err(ZeroDivision)
      else Ok((HeldValue(s, share, priceRatio) - initial) / initial * 100.0)
  }

  /** The return is the percentage growth from the invested value to the held
      value: growing the invested value by it gives back the held value. It
      is positive exactly when the held value exceeds a positive invested
      value, and zero exactly when the two agree. */
  lemma LiquidityReturnsGrowth(s: PoolState, investment: (real, real), priceRatio: real, root: real)
    requires 0.0 <= investment.0 * investment.1 ==> IsSqrt(investment.0 * investment.1, root)
    requires LiquidityReturns(s, investment, priceRatio, root).Ok?
    ensures var r := LiquidityReturns(s, investment, priceRatio, root).value;
            var held := HeldValue(s, root / s.totalLpTokens, priceRatio);
            var initial := InvestedValue(investment, priceRatio);
            && Grow(initial, r / 100.0) == held
            && (r == 0.0 <==> held == initial)
            && (0.0 < initial ==> (0.0 < r <==> initial < held))
  {
    var held := HeldValue(s, root / s.totalLpTokens, priceRatio);
    var initial := InvestedValue(investment, priceRatio);
    var gain := held - initial;
    var fraction := gain / initial;
    var r := fraction * 100.0;
    assert LiquidityReturns(s, investment, priceRatio, root).value == r;
    assert fraction * initial == gain;
    assert Grow(initial, r / 100.0) == initial * (1.0 + fraction);
    if 0.0 < initial {
      if 0.0 < gain {
        MulStrict(initial, 0.0, fraction);
      } else {
        MulMono(initial, fraction, 0.0);
      }
    }
  }

  // ---------------------------------------------------------------------------
  // Value at risk

  /** The loss on a holding worth `value` under each simulated relative
      price change: `value - value * (1 + c)`. */
  function Losses(value: real, changes: seq<real>): (r: seq<real>)
    ensures |r| == |changes|
    ensures forall i :: 0 <= i < |changes| ==> r[i] == value * -changes[i]
  {
    seq(|changes|, i requires 0 <= i < |changes| => value - value * (1.0 + changes[i]))
  }

  /** Ascending order, stated pair by adjacent pair. */
  predicate Sorted(s: seq<real>)
    decreases |s|
  {
    |s| < 2 || (s[0] <= s[1] && Sorted(s[1..]))
  }

  /** In a sorted sequence an earlier element is never larger than a later one. */
  lemma {:induction false} SortedAt(s: seq<real>, i: int, j: int)
    requires Sorted(s) && 0 <= i <= j < |s|
    ensures s[i] <= s[j]
    decreases j
  {
    if i < j {
      if 0 < i {
        SortedAt(s[1..], i - 1, j - 1);
      } else {
        SortedAt(s[1..], 0, j - 1);
      }
    }
  }

  /** The head of a sorted sequence is its least element. */
  lemma SortedLeast(s: seq<real>, y: real)
    requires Sorted(s) && y in s
    ensures s[0] <= y
  {
    var j :| 0 <= j < |s| && s[j] == y;
    SortedAt(s, 0, j);
  }

  /** `x` inserted into the sorted `s` before the first element not below it. */
  function Insert(x: real, s: seq<real>): (r: seq<real>)
    requires Sorted(s)
    ensures |r| == |s| + 1 && Sorted(r) && multiset(r) == multiset(s) + multiset{x}
    ensures r[0] == x || (0 < |s| && r[0] == s[0])
  {
    if |s| == 0 then [x]
    else if x <= s[0] then
      assert ([x] + s)[1..] == s;
      [x] + s
    else
      var rest := Insert(x, s[1..]);
      assert s == [s[0]] + s[1..];
      assert ([s[0]] + rest)[1..] == rest;
      [s[0]] + rest
  }

  /** The sample in ascending order, as `numpy.percentile` sees it. */
  function Sort(s: seq<real>): (r: seq<real>)
    ensures |r| == |s| && Sorted(r) && multiset(r) == multiset(s)
  {
    if |s| == 0 then []
    else
      assert s == [s[0]] + s[1..];
      Insert(s[0], Sort(s[1..]))
  }

  lemma MultisetTail(a: seq<real>)
    requires 0 < |a|
    ensures multiset(a[1..]) == multiset(a) - multiset{a[0]}
  {
    assert a == [a[0]] + a[1..];
  }

  lemma SameHeadAndTail(a: seq<real>, b: seq<real>)
    requires 0 < |a| && 0 < |b| && a[0] == b[0] && a[1..] == b[1..]
    ensures a == b
  {
    assert a == [a[0]] + a[1..] && b == [b[0]] + b[1..];
  }

  /** Two sorted arrangements of the same values start with the same value. */
  lemma SortedHeadsAgree(a: seq<real>, b: seq<real>)
    requires Sorted(a) && Sorted(b) && multiset(a) == multiset(b) && 0 < |a|
    ensures 0 < |b| && a[0] == b[0]
  {
    assert a[0] in multiset(b);
    assert b[0] in multiset(a);
    SortedLeast(a, b[0]);
    SortedLeast(b, a[0]);
  }

  /** A sample has only one ascending arrangement, so `Sort` is determined by
      its contract. */
  lemma {:induction false} SortedUnique(a: seq<real>, b: seq<real>)
    requires Sorted(a) && Sorted(b) && multiset(a) == multiset(b)
    ensures a == b
    decreases |a|
  {
    if |a| == 0 {
      assert |b| == |multiset(b)| == 0;
    } else {
      SortedHeadsAgree(a, b);
      MultisetTail(a);
      MultisetTail(b);
      SortedUnique(a[1..], b[1..]);
      SameHeadAndTail(a, b);
    }
  }

  /** numpy's linear interpolation `lo + t * (hi - lo)`. */
  function Lerp(lo: real, hi: real, t: real): real
  {
    lo + t * (hi - lo)
  }

  /** The position `(n - 1) * q / 100` of the `q`-th percentile among `n`
      sorted values, with its whole part and its fractional part. */
  function Position(n: nat, q: real): real
  {
    (n - 1) as real * (q / 100.0)
  }

  /** The `q`-th percentile of the sorted non-empty `xs`: the interpolation
      between the order statistics on either side of the position. */
  function Interpolate(xs: seq<real>, q: real): real
    requires 0 < |xs| && 0.0 <= q <= 100.0
  {
    PositionBounds(|xs|, q);
    var h := Position(|xs|, q);
    var i := h.Floor;
    var j := if i + 1 < |xs| then i + 1 else i;
    Lerp(xs[i], xs[j], h - i as real)
  }

  lemma PositionBounds(n: nat, q: real)
    requires 0 < n && 0.0 <= q <= 100.0
    ensures 0.0 <= Position(n, q) <= (n - 1) as real
    ensures 0 <= Position(n, q).Floor < n
  {
    var f := q / 100.0;
    assert 0.0 <= f <= 1.0;
    MulMono((n - 1) as real, f, 1.0);
    MulMono((n - 1) as real, 0.0, f);
  }

  /** `numpy.percentile(sample, q)` with the default linear method: the
      percentile must lie in [0, 100], and the sample must not be empty. */
  function Percentile(sample: seq<real>, q: real): Result<real>
  {
    if q < 0.0 || 100.0 < q then Err(PercentileOutOfRange)
    else if |sample| == 0 then Err(EmptySample)
    else Ok(Interpolate(Sort(sample), q))
  }

  /** A percentile lies between the two order statistics it interpolates,
      hence between the smallest and the largest value of the sample. */
  lemma InterpolateBetween(xs: seq<real>, q: real)
    requires Sorted(xs) && 0 < |xs| && 0.0 <= q <= 100.0
    ensures var i := Position(|xs|, q).Floor;
            0 <= i < |xs| && xs[i] <= Interpolate(xs, q) && Interpolate(xs, q) <= xs[if i + 1 < |xs| then i + 1 else i]
    ensures xs[0] <= Interpolate(xs, q) <= xs[|xs| - 1]
  {
    PositionBounds(|xs|, q);
    var h := Position(|xs|, q);
    var i := h.Floor;
    var j := if i + 1 < |xs| then i + 1 else i;
    SortedAt(xs, i, j);
    SortedAt(xs, 0, i);
    SortedAt(xs, j, |xs| - 1);
    LerpBetween(xs[i], xs[j], h - i as real);
  }

  /** Interpolating at a fraction in [0, 1] stays between the two ends. */
  lemma LerpBetween(lo: real, hi: real, t: real)
    requires lo <= hi && 0.0 <= t <= 1.0
    ensures lo <= Lerp(lo, hi, t) <= hi
  {
    MulMono(hi - lo, 0.0, t);
    MulMono(hi - lo, t, 1.0);
  }

  /** The 0th percentile is the minimum and the 100th the maximum. */
  lemma InterpolateEnds(xs: seq<real>)
    requires 0 < |xs|
    ensures Interpolate(xs, 0.0) == xs[0]
    ensures Interpolate(xs, 100.0) == xs[|xs| - 1]
  {
    assert Position(|xs|, 0.0) == 0.0;
    assert Position(|xs|, 100.0) == (|xs| - 1) as real;
    assert ((|xs| - 1) as real).Floor == |xs| - 1;
  }

  /** Interpolating further along the same pair of order statistics never
      gives less. */
  lemma LerpMonotone(lo: real, hi: real, t1: real, t2: real)
    requires lo <= hi && t1 <= t2
    ensures Lerp(lo, hi, t1) <= Lerp(lo, hi, t2)
  {
    MulMono(hi - lo, t1, t2);
  }

  lemma PositionMonotone(n: nat, q1: real, q2: real)
    requires 0 < n && q1 <= q2
    ensures Position(n, q1) <= Position(n, q2)
  {
    var c, f1, f2 := (n - 1) as real, q1 / 100.0, q2 / 100.0;
    assert f1 <= f2;
    MulMono(c, f1, f2);
  }

  /** A higher percentile is never smaller. */
  lemma InterpolateMonotone(xs: seq<real>, q1: real, q2: real)
    requires Sorted(xs) && 0 < |xs| && 0.0 <= q1 <= q2 <= 100.0
    ensures Interpolate(xs, q1) <= Interpolate(xs, q2)
  {
    PositionBounds(|xs|, q1);
    PositionBounds(|xs|, q2);
    var h1, h2 := Position(|xs|, q1), Position(|xs|, q2);
    PositionMonotone(|xs|, q1, q2);
    var i1, i2 := h1.Floor, h2.Floor;
    if i1 == i2 {
      var j := if i1 + 1 < |xs| then i1 + 1 else i1;
      SortedAt(xs, i1, j);
      LerpMonotone(xs[i1], xs[j], h1 - i1 as real, h2 - i1 as real);
    } else {
      InterpolateBetween(xs, q1);
      InterpolateBetween(xs, q2);
      assert i1 < i2 && i1 + 1 < |xs|;
      SortedAt(xs, i1 + 1, i2);
    }
  }

  /** `calculate_var`: the `confidence * 100`-th percentile of the losses on
      the pool's combined reserves under the simulated price changes. The
      time horizon plays no part. */
  function ValueAtRisk(s: PoolState, confidence: real, changes: seq<real>): Result<real>
  {
    Percentile(Losses(PoolValue(s), changes), confidence * 100.0)
  }

  /** The value `calculate_var` puts at risk: the two reserves added. */
  function PoolValue(s: PoolState): real
  {
    s.tokenAReserve + s.tokenBReserve
  }

  /** For a confidence level in [0, 1] and at least one simulation, the value
      at risk is one of the interpolated losses, between the smallest and the
      largest, and a higher confidence never lowers it. */
  lemma ValueAtRiskBounds(s: PoolState, confidence: real, higher: real, changes: seq<real>)
    requires 0.0 <= confidence <= higher <= 1.0 && 0 < |changes|
    ensures var losses := Sort(Losses(PoolValue(s), changes));
            && ValueAtRisk(s, confidence, changes).Ok?
            && losses[0] <= ValueAtRisk(s, confidence, changes).value <= losses[|losses| - 1]
            && ValueAtRisk(s, higher, changes).Ok?
            && ValueAtRisk(s, confidence, changes).value <= ValueAtRisk(s, higher, changes).value
  {
    PercentileBounds(Losses(PoolValue(s), changes), confidence * 100.0, higher * 100.0);
  }

  /** For percentiles `q1 <= q2` in [0, 100] of a non-empty sample, both
      exist, the lower lies between the least and the greatest value, and it
      is at most the higher. */
  lemma PercentileBounds(sample: seq<real>, q1: real, q2: real)
    requires 0 < |sample| && 0.0 <= q1 <= q2 <= 100.0
    ensures var xs := Sort(sample);
            && Percentile(sample, q1).Ok? && Percentile(sample, q2).Ok?
            && xs[0] <= Percentile(sample, q1).value <= xs[|xs| - 1]
            && Percentile(sample, q1).value <= Percentile(sample, q2).value
  {
    var xs := Sort(sample);
    InterpolateBetween(xs, q1);
    InterpolateMonotone(xs, q1, q2);
  }

  // ---------------------------------------------------------------------------
  // Stop loss and position sizing

  /** `implement_stop_loss`: whether the pool's combined reserves have fallen
      from `initial` (the current value when none is given) by at least
      `percentage` of it. */
  function StopLoss(s: PoolState, percentage: real, initial: Option<real>): Result<bool>
  {
    var current := s.tokenAReserve + s.tokenBReserve;
    var start := if initial.None? then current else initial.value;
    if start == 0.0 then Err(ZeroDivision)
    else Ok((start - current) / start >= percentage)
  }

  /** From a positive starting value, the stop-loss fires exactly when the
      current value is at most the starting value less `percentage` of it;
      without a starting value it fires exactly when `percentage` is not
      positive, so never for a positive percentage on a non-empty pool. */
  lemma StopLossTrigger(s: PoolState, percentage: real, initial: Option<real>)
    ensures var current := s.tokenAReserve + s.tokenBReserve;
            && (initial.Some? && 0.0 < initial.value ==>
                  StopLoss(s, percentage, initial) == Ok(current <= initial.value - percentage * initial.value))
            && (initial.None? && current != 0.0 ==> StopLoss(s, percentage, initial) == Ok(percentage <= 0.0))
            && (initial.None? && current == 0.0 ==> StopLoss(s, percentage, initial) == Err(ZeroDivision))
  {
    var current := s.tokenAReserve + s.tokenBReserve;
    if initial.Some? && 0.0 < initial.value {
      var start := initial.value;
      var drop := (start - current) / start;
      assert drop * start == start - current;
      if drop >= percentage {
        MulMono(start, percentage, drop);
      } else {
        MulStrict(start, drop, percentage);
      }
    }
  }

  /** `dynamic_position_sizing`: `risk_factor` of the pool's combined
      reserves, split in the ratio of the reserves. */
  function PositionSizing(s: PoolState, riskFactor: real): Result<(real, real)>
  {
    var total := s.tokenAReserve + s.tokenBReserve;
    if total == 0.0 then Err(ZeroDivision)
    else
      var risk := total * riskFactor;
      Ok((risk * (s.tokenAReserve / total), risk * (s.tokenBReserve / total)))
  }

  /** The two positions are the risk factor times each reserve: they add up
      to the risk factor times the pool and stand in the pool's ratio. */
  lemma PositionSizingSplit(s: PoolState, riskFactor: real)
    requires s.tokenAReserve + s.tokenBReserve != 0.0
    ensures PositionSizing(s, riskFactor).Ok?
    ensures var (a, b) := PositionSizing(s, riskFactor).value;
            && a == riskFactor * s.tokenAReserve && b == riskFactor * s.tokenBReserve
            && a + b == riskFactor * (s.tokenAReserve + s.tokenBReserve)
            && a * s.tokenBReserve == b * s.tokenAReserve
  {
    var ra, rb := s.tokenAReserve, s.tokenBReserve;
    var total := ra + rb;
    var risk := total * riskFactor;
    var shareA, shareB := ra / total, rb / total;
    assert shareA * total == ra && shareB * total == rb;
    assert risk * shareA == riskFactor * (shareA * total);
    assert risk * shareB == riskFactor * (shareB * total);
    var a, b := riskFactor * ra, riskFactor * rb;
    assert a * rb == riskFactor * (ra * rb);
    assert b * ra == riskFactor * (ra * rb);
  }

  // ---------------------------------------------------------------------------
  // The analytics object

  class RiskManagement {
    const amm: AMM

    constructor (amm: AMM)
      ensures this.amm == amm
    {
      this.amm := amm;
    }

    /** `calculate_total_fees_earned`: the registry's fee totals, unchanged. */
    method CalculateTotalFeesEarned() returns (r: Result<map<string, real>>)
      requires amm.Valid()
      ensures r == Accumulate(amm.order, Fees(amm.Values()), map[])
    {
      r := amm.CalculateFeesEarned();
    }

    /** `calculate_liquidity_returns` on the pair's pool. */
    function CalculateLiquidityReturns(tokenA: string, tokenB: string, investment: (real, real),
                                       priceRatio: real, root: real): (r: Result<real>)
      requires 0.0 <= investment.0 * investment.1 ==> IsSqrt(investment.0 * investment.1, root)
      reads amm, amm.pools.Values
      ensures var key := PoolKey(tokenA, tokenB);
              && (key !in amm.pools ==> r == Err(PoolNotFound))
              && (key in amm.pools ==> r == LiquidityReturns(StateOf(amm.Values()[key]), investment, priceRatio, root))
    {
      var state := amm.GetPoolState(tokenA, tokenB);
      if state.Err? then Err(state.error) else LiquidityReturns(state.value, investment, priceRatio, root)
    }

    /** `calculate_var` on the pair's pool, with the simulated price changes given. */
    function CalculateVar(tokenA: string, tokenB: string, confidence: real, changes: seq<real>): (r: Result<real>)
      reads amm, amm.pools.Values
      ensures var key := PoolKey(tokenA, tokenB);
              && (key !in amm.pools ==> r == Err(PoolNotFound))
              && (key in amm.pools ==> r == ValueAtRisk(StateOf(amm.Values()[key]), confidence, changes))
    {
      var state := amm.GetPoolState(tokenA, tokenB);
      if state.Err? then Err(state.error) else ValueAtRisk(state.value, confidence, changes)
    }

    /** `implement_stop_loss` on the pair's pool. */
    function ImplementStopLoss(tokenA: string, tokenB: string, percentage: real, initial: Option<real>): (r: Result<bool>)
      reads amm, amm.pools.Values
      ensures var key := PoolKey(tokenA, tokenB);
              && (key !in amm.pools ==> r == Err(PoolNotFound))
              && (key in amm.pools ==> r == StopLoss(StateOf(amm.Values()[key]), percentage, initial))
    {
      var state := amm.GetPoolState(tokenA, tokenB);
      if state.Err? then Err(state.error) else StopLoss(state.value, percentage, initial)
    }

    /** `dynamic_position_sizing` on the pair's pool. */
    function DynamicPositionSizing(tokenA: string, tokenB: string, riskFactor: real): (r: Result<(real, real)>)
      reads amm, amm.pools.Values
      ensures var key := PoolKey(tokenA, tokenB);
              && (key !in amm.pools ==> r == Err(PoolNotFound))
              && (key in amm.pools ==> r == PositionSizing(StateOf(amm.Values()[key]), riskFactor))
    {
      var state := amm.GetPoolState(tokenA, tokenB);
      if state.Err? then Err(state.error) else PositionSizing(state.value, riskFactor)
    }
  }

  // ---------------------------------------------------------------------------
  // Scenarios from the unit tests, on the state (1000, 2000) with 100 LP tokens.

  function TestState(ra: real, rb: real): PoolState
  {
    PoolState(ra, rb, ra * rb, 0.0, 0.0, 100.0)
  }

  /** Investing (500, 1000) at price ratio 2 returns about 1314.213%;
      `root` is `math.sqrt(500000)`. */
  lemma LiquidityReturnsExample(root: real)
    requires IsSqrt(500.0 * 1000.0, root)
    ensures var r := LiquidityReturns(TestState(1000.0, 2000.0), (500.0, 1000.0), 2.0, root);
            r.Ok? && 1314.212 <= r.value <= 1314.214
  {
    SqrtBetween(500000.0, root, 707.1067, 707.1068);
    var share := root / 100.0;
    assert HeldValue(TestState(1000.0, 2000.0), share, 2.0) == 20.0 * root;
  }

  /** The five simulated changes (-1%, -2%, -3%, 1%, 2%) on a pool worth
      3000 lose (30, 60, 90, -30, -60); their 95th percentile is 84. */
  lemma ValueAtRiskExample()
    ensures ValueAtRisk(TestState(1000.0, 2000.0), DefaultConfidence, [-0.01, -0.02, -0.03, 0.01, 0.02]) == Ok(84.0)
  {
    var sorted := [-60.0, -30.0, 30.0, 60.0, 90.0];
    SortedLossesExample();
    assert Position(5, 95.0) == 3.8;
    assert (3.8).Floor == 3;
    assert Interpolate(sorted, 95.0) == Lerp(60.0, 90.0, 0.8);
  }

  lemma SortedLossesExample()
    ensures Sort(Losses(3000.0, [-0.01, -0.02, -0.03, 0.01, 0.02])) == [-60.0, -30.0, 30.0, 60.0, 90.0]
  {
    LossesExample();
    SortExample();
  }

  lemma LossesExample()
    ensures Losses(3000.0, [-0.01, -0.02, -0.03, 0.01, 0.02]) == [30.0, 60.0, 90.0, -30.0, -60.0]
  {
    var changes := [-0.01, -0.02, -0.03, 0.01, 0.02];
    var losses := Losses(3000.0, changes);
    assert losses[0] == 30.0 && losses[1] == 60.0 && losses[2] == 90.0 && losses[3] == -30.0 && losses[4] == -60.0;
  }

  lemma SortExample()
    ensures Sort([30.0, 60.0, 90.0, -30.0, -60.0]) == [-60.0, -30.0, 30.0, 60.0, 90.0]
  {
    var sorted := [-60.0, -30.0, 30.0, 60.0, 90.0];
    assert multiset([30.0, 60.0, 90.0, -30.0, -60.0]) == multiset(sorted) by {
      MultisetExample();
    }
    assert Sorted(sorted);
    SortedUnique(Sort([30.0, 60.0, 90.0, -30.0, -60.0]), sorted);
  }

  lemma MultisetExample()
    ensures multiset([30.0, 60.0, 90.0, -30.0, -60.0]) == multiset([-60.0, -30.0, 30.0, 60.0, 90.0])
  {
  }

  /** Falling from 2000 to 1500 triggers a 10% stop-loss; an unchanged pool
      (900, 1800) with no starting value does not. Sizing (1000, 2000) at 2%
      gives (20, 40). */
  lemma StopLossAndSizingExamples()
    ensures StopLoss(TestState(500.0, 1000.0), 0.1, Some(2000.0)) == Ok(true)
    ensures StopLoss(TestState(900.0, 1800.0), 0.1, None) == Ok(false)
    ensures PositionSizing(TestState(1000.0, 2000.0), DefaultRiskFactor) == Ok((20.0, 40.0))
  {
    PositionSizingSplit(TestState(1000.0, 2000.0), DefaultRiskFactor);
  }
}
