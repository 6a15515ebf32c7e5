/** One two-token constant-product pool (`LiquidityPool`).

    The class keeps the source's seven mutable fields and updates them in place.
    Each state-changing method is specified by a step function on `Pool`, the
    value of all seven fields: on success the new value and the method's
    return value are the step's, and on failure nothing has changed, because
    the source checks every error before it assigns a field. The properties
    the pool promises (pro-rata minting, the add/remove round trip, the
    constant-product invariant kept by swaps) are lemmas about the step
    functions. */
module LiquidityPools {
  import opened Numeric

  /** The fee a pool starts with when none is given (0.3%). */
  const DefaultFee: real := 0.003
  /** The relative tolerance `add_liquidity` uses by default. */
  const DefaultTolerance: real := 0.001

  /** The value of every field of a pool object. */
  datatype Pool = Pool(
    reserveA: real,
    reserveB: real,
    k: real,
    fee: real,
    feesA: real,
    feesB: real,
    lpSupply: real)

  /** What `get_pool_state` returns: every field except the fee. */
  datatype PoolState = PoolState(
    tokenAReserve: real,
    tokenBReserve: real,
    k: real,
    totalFeesA: real,
    totalFeesB: real,
    totalLpTokens: real)

  function StateOf(p: Pool): PoolState
  {
    PoolState(p.reserveA, p.reserveB, p.k, p.feesA, p.feesB, p.lpSupply)
  }

  /** The reported state is the whole pool except its fee: two pools report
      the same state exactly when they differ at most in the fee. */
  lemma StateOfForgetsFee(p: Pool, q: Pool)
    ensures StateOf(p) == StateOf(q) <==> q == p.(fee := q.fee)
  {
  }

  /** The pool the constructor builds; `root` is `math.sqrt(a * b)`. */
  function Initial(a: real, b: real, fee: real, root: real): Pool
    requires IsSqrt(a * b, root)
  {
    Pool(a, b, a * b, fee, 0.0, 0.0, root)
  }

  /** A new pool over positive reserves with a fee in [0, 1) starts healthy:
      `k` is the product of the reserves, nothing has been collected, and
      the LP supply is the geometric mean of the reserves, so its square is
      `k`. */
  lemma InitialHealthy(a: real, b: real, fee: real, root: real)
    requires 0.0 < a && 0.0 < b && 0.0 <= fee < 1.0 && IsSqrt(a * b, root)
    ensures var p := Initial(a, b, fee, root);
            && Healthy(p) && p.k == p.reserveA * p.reserveB
            && p.feesA == 0.0 && p.feesB == 0.0 && p.fee == fee
            && p.lpSupply * p.lpSupply == p.k
  {
    MulStrict(a, 0.0, b);
  }

  /** `add_liquidity`: the deposit must be in the current B/A ratio up to the
      relative tolerance; it mints LP tokens in proportion to the A side. */
  function DepositStep(p: Pool, amountA: real, amountB: real, tolerance: real): Result<(Pool, real)>
  {
    if p.reserveA == 0.0 || amountA == 0.0 then Err(ZeroDivision)
    else if tolerance < 0.0 then Err(InvalidTolerance)
    else if !IsClose(amountB / amountA, p.reserveB / p.reserveA, tolerance) then Err(ImbalancedDeposit)
    else Ok(Deposited(p, amountA, amountB))
  }

  /** The effect of an accepted deposit: the new pool and the minted tokens. */
  function Deposited(p: Pool, amountA: real, amountB: real): (r: (Pool, real))
    requires p.reserveA != 0.0
    ensures r.0.k == r.0.reserveA * r.0.reserveB
  {
    var minted := Minted(amountA, p.reserveA, p.lpSupply);
    var a := p.reserveA + amountA;
    var b := p.reserveB + amountB;
    (p.(reserveA := a, reserveB := b, k := a * b, lpSupply := p.lpSupply + minted), minted)
  }

  /** The LP tokens minted for `amount` of token A deposited against
      `reserve`: the same fraction of the `supply` as `amount` is of
      `reserve`. */
  function Minted(amount: real, reserve: real, supply: real): real
    requires reserve != 0.0
  {
    (amount / reserve) * supply
  }

  /** `remove_liquidity`: redeems `lpTokens` for the same share of each reserve. */
  function WithdrawStep(p: Pool, lpTokens: real): Result<(Pool, (real, real))>
  {
    if lpTokens > p.lpSupply then Err(InsufficientLpTokens)
    else if p.lpSupply == 0.0 then Err(ZeroDivision)
    else
      var share := lpTokens / p.lpSupply;
      var outA := share * p.reserveA;
      var outB := share * p.reserveB;
      var a := p.reserveA - outA;
      var b := p.reserveB - outB;
      Ok((p.(reserveA := a, reserveB := b, k := a * b, lpSupply := p.lpSupply - lpTokens), (outA, outB)))
  }

  /** `swap_a_to_b`: prices the trade on the stored `k` with the fee taken off
      the input, credits the full input to reserve A and records the fee; `k`
      itself is not refreshed. */
  function SwapAToBStep(p: Pool, amountIn: real): Result<(Pool, real)>
  {
    var inWithFee := amountIn * (1.0 - p.fee);
    if p.reserveA + inWithFee == 0.0 then Err(ZeroDivision)
    else
      var out := p.reserveB - p.k / (p.reserveA + inWithFee);
      if out <= 0.0 then Err(InsufficientLiquidity)
      else Ok((p.(reserveA := p.reserveA + amountIn, reserveB := p.reserveB - out,
                  feesA := p.feesA + amountIn * p.fee), out))
  }

  /** `swap_b_to_a`, the mirror image of `swap_a_to_b`. */
  function SwapBToAStep(p: Pool, amountIn: real): Result<(Pool, real)>
  {
    var inWithFee := amountIn * (1.0 - p.fee);
    if p.reserveB + inWithFee == 0.0 then Err(ZeroDivision)
    else
      var out := p.reserveA - p.k / (p.reserveB + inWithFee);
      if out <= 0.0 then Err(InsufficientLiquidity)
      else Ok((p.(reserveB := p.reserveB + amountIn, reserveA := p.reserveA - out,
                  feesB := p.feesB + amountIn * p.fee), out))
  }

  /** How a state-changing method relates to its step: success installs the
      step's new value and returns its output; failure changes nothing. */
  predicate Applied<T(==)>(before: Pool, after: Pool, r: Result<T>, step: Result<(Pool, T)>)
  {
    match step
    case Ok(res) => after == res.0 && r == Ok(res.1)
    case Err(e) => after == before && r == Err(e)
  }

  /** A pool in working order: positive reserves and supply, a positive
      invariant no larger than the product of the reserves, a fee in [0, 1)
      and non-negative fee totals. */
  predicate Healthy(p: Pool)
  {
    && 0.0 < p.reserveA && 0.0 < p.reserveB
    && 0.0 < p.k && p.k <= p.reserveA * p.reserveB
    && 0.0 <= p.fee < 1.0
    && 0.0 <= p.feesA && 0.0 <= p.feesB
    && 0.0 < p.lpSupply
  }

  /** The pool with its two sides exchanged. */
  function Flip(p: Pool): Pool
  {
    Pool(p.reserveB, p.reserveA, p.k, p.fee, p.feesB, p.feesA, p.lpSupply)
  }

  function FlipStep(r: Result<(Pool, real)>): Result<(Pool, real)>
  {
    match r
    case Ok(res) => Ok((Flip(res.0), res.1))
    case Err(e) => Err(e)
  }

  class LiquidityPool {
    var tokenAReserve: real
    var tokenBReserve: real
    var k: real
    var fee: real
    var totalFeesA: real
    var totalFeesB: real
    var totalLpTokens: real

    function Value(): Pool
      reads this
    {
      Pool(tokenAReserve, tokenBReserve, k, fee, totalFeesA, totalFeesB, totalLpTokens)
    }

    /** `LiquidityPool(a, b, fee)`; `root` is `math.sqrt(a * b)`. No check on
        the reserves is made. */
    constructor (tokenAReserve: real, tokenBReserve: real, fee: real, root: real)
      requires IsSqrt(tokenAReserve * tokenBReserve, root)
      ensures Value() == Initial(tokenAReserve, tokenBReserve, fee, root)
    {
      this.tokenAReserve := tokenAReserve;
      this.tokenBReserve := tokenBReserve;
      this.k := tokenAReserve * tokenBReserve;
      this.fee := fee;
      this.totalFeesA := 0.0;
      this.totalFeesB := 0.0;
      this.totalLpTokens := root;
    }

    method AddLiquidity(tokenAAmount: real, tokenBAmount: real, tolerance: real) returns (r: Result<real>)
      modifies this
      ensures Applied(old(Value()), Value(), r, DepositStep(old(Value()), tokenAAmount, tokenBAmount, tolerance))
    {
      if tokenAReserve == 0.0 {
        return Err(ZeroDivision);
      }
      var ratio := tokenBReserve / tokenAReserve;
      if tokenAAmount == 0.0 {
        return Err(ZeroDivision);
      }
      if tolerance < 0.0 {
        return Err(InvalidTolerance);
      }
      if !IsClose(tokenBAmount / tokenAAmount, ratio, tolerance) {
        return Err(ImbalancedDeposit);
      }
      var minted := (tokenAAmount / tokenAReserve) * totalLpTokens;
      assert minted == Minted(tokenAAmount, tokenAReserve, totalLpTokens);
      tokenAReserve := tokenAReserve + tokenAAmount;
      tokenBReserve := tokenBReserve + tokenBAmount;
      k := tokenAReserve * tokenBReserve;
      totalLpTokens := totalLpTokens + minted;
      return Ok(minted);
    }

    method RemoveLiquidity(lpTokens: real) returns (r: Result<(real, real)>)
      modifies this
      ensures Applied(old(Value()), Value(), r, WithdrawStep(old(Value()), lpTokens))
    {
      if lpTokens > totalLpTokens {
        return Err(InsufficientLpTokens);
      }
      if totalLpTokens == 0.0 {
        return Err(ZeroDivision);
      }
      var share := lpTokens / totalLpTokens;
      var tokenAAmount := share * tokenAReserve;
      var tokenBAmount := share * tokenBReserve;
      tokenAReserve := tokenAReserve - tokenAAmount;
      tokenBReserve := tokenBReserve - tokenBAmount;
      k := tokenAReserve * tokenBReserve;
      totalLpTokens := totalLpTokens - lpTokens;
      return Ok((tokenAAmount, tokenBAmount));
    }

    method SwapAToB(tokenAAmount: real) returns (r: Result<real>)
      modifies this
      ensures Applied(old(Value()), Value(), r, SwapAToBStep(old(Value()), tokenAAmount))
    {
      var withFee := tokenAAmount * (1.0 - fee);
      if tokenAReserve + withFee == 0.0 {
        return Err(ZeroDivision);
      }
      var tokenBAmount := tokenBReserve - k / (tokenAReserve + withFee);
      if tokenBAmount <= 0.0 {
        return Err(InsufficientLiquidity);
      }
      tokenAReserve := tokenAReserve + tokenAAmount;
      tokenBReserve := tokenBReserve - tokenBAmount;
      totalFeesA := totalFeesA + tokenAAmount * fee;
      return Ok(tokenBAmount);
    }

    method SwapBToA(tokenBAmount: real) returns (r: Result<real>)
      modifies this
      ensures Applied(old(Value()), Value(), r, SwapBToAStep(old(Value()), tokenBAmount))
    {
      var withFee := tokenBAmount * (1.0 - fee);
      if tokenBReserve + withFee == 0.0 {
        return Err(ZeroDivision);
      }
      var tokenAAmount := tokenAReserve - k / (tokenBReserve + withFee);
      if tokenAAmount <= 0.0 {
        return Err(InsufficientLiquidity);
      }
      tokenBReserve := tokenBReserve + tokenBAmount;
      tokenAReserve := tokenAReserve - tokenAAmount;
      totalFeesB := totalFeesB + tokenBAmount * fee;
      return Ok(tokenAAmount);
    }

    /** `get_exchange_rate`: the price of A in B, reserve B over reserve A. */
    function GetExchangeRate(): (r: Result<real>)
      reads this
      ensures r.Ok? <==> tokenAReserve != 0.0
      ensures r.Ok? ==> r.value * tokenAReserve == tokenBReserve
    {
      if tokenAReserve == 0.0 then Err(ZeroDivision) else Ok(tokenBReserve / tokenAReserve)
    }

    function GetPoolState(): PoolState
      reads this
    {
      StateOf(Value())
    }

    /** `calculate_impermanent_loss(r)`; `root` is `math.sqrt(r)`, which fails
        for a negative ratio. */
    static function CalculateImpermanentLoss(priceRatioChange: real, root: real): (r: Result<real>)
      requires 0.0 <= priceRatioChange ==> IsSqrt(priceRatioChange, root)
      ensures r.Err? <==> priceRatioChange < 0.0
      ensures r.Ok? ==> -1.0 <= r.value < 1.0 && r.value * (root + 1.0) == root - 1.0
    {
      if priceRatioChange < 0.0 then Err(MathDomain)
      else
        var loss := 2.0 * (root / (1.0 + root)) - 1.0;
        assert loss * (root + 1.0) == root - 1.0 by {
          var q := root / (1.0 + root);
          assert q * (1.0 + root) == root;
        }
        Ok(loss)
    }
  }

  // ---------------------------------------------------------------------------
  // Arithmetic helpers

  /** Cross-multiplication: two quotients agree when their cross products do. */
  lemma CrossRatio(a: real, b: real, c: real, d: real)
    requires b != 0.0 && d != 0.0 && a * d == c * b
    ensures a / b == c / d
  {
    var q1, q2 := a / b, c / d;
    assert q1 * b == a;
    assert q2 * d == c;
    assert q1 * b * d == q2 * d * b;
  }

  // ---------------------------------------------------------------------------
  // add_liquidity

  /** `isclose` with a non-negative tolerance: a deposit is refused as
      imbalanced exactly when its B/A ratio is farther from the pool's than
      the tolerance times either ratio. */
  lemma DepositRejectsImbalance(p: Pool, amountA: real, amountB: real, tolerance: real)
    requires p.reserveA != 0.0 && amountA != 0.0 && 0.0 <= tolerance
    ensures DepositStep(p, amountA, amountB, tolerance) == Err(ImbalancedDeposit) <==>
              !WithinRelTol(amountB / amountA, p.reserveB / p.reserveA, tolerance)
  {
    var given, current := amountB / amountA, p.reserveB / p.reserveA;
    var r := DepositStep(p, amountA, amountB, tolerance);
    assert r == Err(ImbalancedDeposit) <==> !IsClose(given, current, tolerance);
    IsCloseRelative(given, current, tolerance);
  }

  /** A deposit is accepted exactly when neither division fails, the
      tolerance is non-negative and the ratios are within it; an accepted
      deposit has the effect `Deposited` describes. */
  lemma DepositAccepted(p: Pool, amountA: real, amountB: real, tolerance: real)
    ensures DepositStep(p, amountA, amountB, tolerance).Ok? <==>
              && p.reserveA != 0.0 && amountA != 0.0 && 0.0 <= tolerance
              && WithinRelTol(amountB / amountA, p.reserveB / p.reserveA, tolerance)
    ensures DepositStep(p, amountA, amountB, tolerance).Ok? ==>
              DepositStep(p, amountA, amountB, tolerance).value == Deposited(p, amountA, amountB)
  {
    if p.reserveA != 0.0 && amountA != 0.0 && 0.0 <= tolerance {
      DepositRejectsImbalance(p, amountA, amountB, tolerance);
    }
  }

  /** An accepted deposit adds both amounts to the reserves, refreshes `k` to
      their product, keeps the fee and the fee totals, and mints pro rata: the
      minted tokens are to the old supply as the A amount is to the old A
      reserve, and they are the same fraction of the new supply as the A
      amount is of the new A reserve. */
  lemma DepositMintsProRata(p: Pool, amountA: real, amountB: real)
    requires p.reserveA != 0.0
    ensures var (q, minted) := Deposited(p, amountA, amountB);
            && q.reserveA == p.reserveA + amountA && q.reserveB == p.reserveB + amountB
            && q.k == q.reserveA * q.reserveB
            && q.lpSupply == p.lpSupply + minted
            && q.fee == p.fee && q.feesA == p.feesA && q.feesB == p.feesB
            && minted * p.reserveA == amountA * p.lpSupply
            && (q.reserveA != 0.0 && q.lpSupply != 0.0 ==> minted / q.lpSupply == amountA / q.reserveA)
  {
    var (q, minted) := Deposited(p, amountA, amountB);
    MintedShare(p.reserveA, p.lpSupply, amountA, minted, q.reserveA, q.lpSupply);
  }

  /** The arithmetic of pro-rata minting: `minted` tokens for an A deposit `x`
      into reserve `ra` with supply `lp` are to `lp` as `x` is to `ra`, and the
      same fraction of the new supply `sup` as `x` is of the new reserve `a`. */
  lemma MintedShare(ra: real, lp: real, x: real, minted: real, a: real, sup: real)
    requires ra != 0.0 && minted == (x / ra) * lp && a == ra + x && sup == lp + minted
    ensures minted * ra == x * lp
    ensures a != 0.0 && sup != 0.0 ==> minted / sup == x / a
  {
    var ratio := x / ra;
    assert ratio * ra == x;
    assert minted * ra == x * lp;
    if a != 0.0 && sup != 0.0 {
      assert minted * a == x * sup by {
        assert minted * a == minted * ra + minted * x;
        assert x * sup == x * lp + x * minted;
      }
      CrossRatio(minted, sup, x, a);
    }
  }

  /** The arithmetic of redeeming freshly minted tokens: with `minted` the
      pro-rata mint for an A deposit `x` and `a`, `b`, `sup` the reserves and
      supply after the deposit, the redeemed share of `a` is `x` and, for a
      deposit in the exact ratio, the share of `b` is `y`. */
  lemma RedeemMintedShare(ra: real, rb: real, lp: real, x: real, y: real,
                          minted: real, a: real, b: real, sup: real)
    requires 0.0 < ra && 0.0 < lp && 0.0 < x
    requires minted == (x / ra) * lp && a == ra + x && b == rb + y && sup == lp + minted
    ensures 0.0 < minted <= sup
    ensures (minted / sup) * a == x
    ensures (minted / sup) * b == x / a * b
    ensures y * ra == x * rb ==> (minted / sup) * b == y
    ensures y * ra == x * rb ==> (a - (minted / sup) * a) * (b - (minted / sup) * b) == ra * rb
  {
    var ratio := x / ra;
    assert ratio * ra == x;
    assert 0.0 < ratio;
    MulStrict(lp, 0.0, ratio);
    MintedShare(ra, lp, x, minted, a, sup);
    if y * ra == x * rb {
      var s := x / a;
      assert s * a == x;
      assert y * a == x * b by {
        assert y * a == y * ra + y * x;
        assert x * b == x * rb + x * y;
      }
      assert s * b * a == x * b;
      assert a - (minted / sup) * a == ra && b - (minted / sup) * b == rb;
    }
  }

  /** Depositing and then redeeming exactly the minted tokens returns the A
      amount exactly and the B amount re-priced at the post-deposit ratio, and
      restores reserve A and the LP supply; when the deposit was in the exact
      ratio it restores reserve B and `k` as well. (`Deposited` is what every
      accepted `DepositStep` yields.) */
  lemma DepositWithdrawRoundTrip(p: Pool, amountA: real, amountB: real)
    requires 0.0 < p.reserveA && 0.0 < p.lpSupply && 0.0 < amountA
    ensures var (q, minted) := Deposited(p, amountA, amountB);
            var w := WithdrawStep(q, minted);
            && w.Ok?
            && w.value.1.0 == amountA
            && w.value.1.1 == amountA / q.reserveA * q.reserveB
            && w.value.0.reserveA == p.reserveA
            && w.value.0.lpSupply == p.lpSupply
            && (amountB * p.reserveA == amountA * p.reserveB ==>
                  w.value.1.1 == amountB && w.value.0.reserveB == p.reserveB && w.value.0.k == p.reserveA * p.reserveB)
  {
    var (q, minted) := Deposited(p, amountA, amountB);
    RedeemMinted(q, minted, p.reserveA, p.reserveB, p.lpSupply, amountA, amountB);
  }

  /** Redeeming `minted` from a pool `q` that holds a pro-rata deposit of
      `x` and `y` on top of reserves `ra`, `rb` and supply `lp`. */
  lemma RedeemMinted(q: Pool, minted: real, ra: real, rb: real, lp: real, x: real, y: real)
    requires 0.0 < ra && 0.0 < lp && 0.0 < x
    requires minted == (x / ra) * lp
    requires q.reserveA == ra + x && q.reserveB == rb + y && q.lpSupply == lp + minted
    ensures var w := WithdrawStep(q, minted);
            && w.Ok?
            && w.value.1.0 == x
            && w.value.1.1 == x / q.reserveA * q.reserveB
            && w.value.0.reserveA == ra
            && w.value.0.lpSupply == lp
            && (y * ra == x * rb ==> w.value.1.1 == y && w.value.0.reserveB == rb && w.value.0.k == ra * rb)
  {
    RedeemMintedShare(ra, rb, lp, x, y, minted, q.reserveA, q.reserveB, q.lpSupply);
  }

  /** A deposit of positive amounts into a healthy pool keeps it healthy and
      makes `k` exactly the product of the reserves. */
  lemma DepositKeepsHealthy(p: Pool, amountA: real, amountB: real, tolerance: real)
    requires Healthy(p) && 0.0 < amountA && 0.0 < amountB
    requires DepositStep(p, amountA, amountB, tolerance).Ok?
    ensures var q := DepositStep(p, amountA, amountB, tolerance).value.0;
            Healthy(q) && q.k == q.reserveA * q.reserveB
  {
    var (q, minted) := DepositStep(p, amountA, amountB, tolerance).value;
    var ratio := amountA / p.reserveA;
    assert 0.0 < ratio;
    assert minted == Minted(amountA, p.reserveA, p.lpSupply) == ratio * p.lpSupply;
    MulStrict(p.lpSupply, 0.0, ratio);
    MulStrict(q.reserveA, 0.0, q.reserveB);
  }

  // ---------------------------------------------------------------------------
  // remove_liquidity

  /** Redeeming more than the supply is refused; otherwise (with a non-zero
      supply) the payout is pro rata and in the pool's ratio, nothing is
      created or destroyed, the supply drops by the redeemed amount and `k` is
      refreshed. */
  lemma WithdrawPaysShare(p: Pool, lpTokens: real)
    requires p.lpSupply != 0.0
    ensures WithdrawStep(p, lpTokens).Err? <==> p.lpSupply < lpTokens
    ensures p.lpSupply < lpTokens ==> WithdrawStep(p, lpTokens) == Err(InsufficientLpTokens)
    ensures WithdrawStep(p, lpTokens).Ok? ==>
              var (q, (outA, outB)) := WithdrawStep(p, lpTokens).value;
              && outA + q.reserveA == p.reserveA && outB + q.reserveB == p.reserveB
              && outA * p.lpSupply == lpTokens * p.reserveA
              && outB * p.lpSupply == lpTokens * p.reserveB
              && outA * p.reserveB == outB * p.reserveA
              && q.lpSupply == p.lpSupply - lpTokens
              && q.k == q.reserveA * q.reserveB
              && q.fee == p.fee && q.feesA == p.feesA && q.feesB == p.feesB
  {
    if lpTokens <= p.lpSupply {
      var share := lpTokens / p.lpSupply;
      assert share * p.lpSupply == lpTokens;
      var outA, outB := share * p.reserveA, share * p.reserveB;
      assert outA * p.lpSupply == lpTokens * p.reserveA;
      assert outB * p.lpSupply == lpTokens * p.reserveB;
      assert outA * p.reserveB == outB * p.reserveA;
    }
  }

  /** Redeeming the whole supply is accepted and drains the pool: both
      reserves, the supply and `k` become zero and the payout is everything. */
  lemma WithdrawAllDrains(p: Pool)
    requires p.lpSupply != 0.0
    ensures var w := WithdrawStep(p, p.lpSupply);
            && w.Ok?
            && w.value.1 == (p.reserveA, p.reserveB)
            && w.value.0.reserveA == 0.0 && w.value.0.reserveB == 0.0
            && w.value.0.lpSupply == 0.0 && w.value.0.k == 0.0
  {
    var share := p.lpSupply / p.lpSupply;
    assert share == 1.0;
    assert share * p.reserveA == p.reserveA && share * p.reserveB == p.reserveB;
    var w := WithdrawStep(p, p.lpSupply);
    assert w.value.1.0 == p.reserveA && w.value.1.1 == p.reserveB;
  }

  /** Redeeming a non-negative amount below the supply keeps a healthy pool
      healthy, with `k` exactly the product of the reserves. */
  lemma WithdrawKeepsHealthy(p: Pool, lpTokens: real)
    requires Healthy(p) && 0.0 <= lpTokens < p.lpSupply
    ensures WithdrawStep(p, lpTokens).Ok?
    ensures var q := WithdrawStep(p, lpTokens).value.0;
            Healthy(q) && q.k == q.reserveA * q.reserveB
  {
    var share := lpTokens / p.lpSupply;
    assert share < 1.0 by {
      assert share * p.lpSupply == lpTokens;
      if 1.0 <= share {
        MulMono(p.lpSupply, 1.0, share);
        assert false;
      }
    }
    var q := WithdrawStep(p, lpTokens).value.0;
    assert q.reserveA == (1.0 - share) * p.reserveA;
    assert q.reserveB == (1.0 - share) * p.reserveB;
    var ra, rb := q.reserveA, q.reserveB;
    assert 0.0 < ra && 0.0 < rb;
    assert 0.0 < ra * rb;
  }

  // ---------------------------------------------------------------------------
  // Swaps

  /** `swap_b_to_a` is `swap_a_to_b` on the pool with its sides exchanged. */
  lemma SwapMirror(p: Pool, amountIn: real)
    ensures SwapBToAStep(p, amountIn) == FlipStep(SwapAToBStep(Flip(p), amountIn))
  {
    var f := Flip(p);
    assert f.reserveA == p.reserveB && f.reserveB == p.reserveA && f.k == p.k && f.fee == p.fee;
    var s := SwapAToBStep(f, amountIn);
    if s.Ok? {
      assert Flip(s.value.0) == SwapBToAStep(p, amountIn).value.0;
    }
  }

  /** Dividing by a positive number preserves the order against a product. */
  lemma QuotientBelow(k: real, d: real, b: real)
    requires 0.0 < d
    ensures k / d < b <==> k < d * b
  {
    var q := k / d;
    assert q * d == k;
    if q < b {
      MulStrict(d, q, b);
    } else {
      MulMono(d, b, q);
    }
  }

  /** A positive amount divided by a larger positive number is smaller. */
  lemma QuotientShrinks(k: real, d1: real, d2: real)
    requires 0.0 < k && 0.0 < d1 < d2
    ensures k / d2 < k / d1
  {
    var q1, q2 := k / d1, k / d2;
    assert q1 * d1 == k && q2 * d2 == k;
    assert 0.0 < q1;
    if q1 <= q2 {
      MulStrict(q1, d1, d2);
      MulMono(d2, q1, q2);
    }
  }

  /** On a healthy pool a positive input always trades, and a zero input
      trades exactly when `k` has fallen behind the product of the reserves
      (which is the case after any swap with a positive fee). */
  lemma SwapAToBAccepts(p: Pool, amountIn: real)
    requires Healthy(p)
    ensures 0.0 < amountIn ==> SwapAToBStep(p, amountIn).Ok?
    ensures SwapAToBStep(p, 0.0).Ok? <==> p.k < p.reserveA * p.reserveB
  {
    QuotientBelow(p.k, p.reserveA, p.reserveB);
    assert 0.0 * (1.0 - p.fee) == 0.0;
    assert p.reserveA + 0.0 == p.reserveA;
    if 0.0 < amountIn {
      var withFee := amountIn * (1.0 - p.fee);
      MulStrict(amountIn, 0.0, 1.0 - p.fee);
      OutputPositive(p.k, p.reserveA, p.reserveB, withFee);
      assert p.reserveA + withFee != 0.0;
    }
  }

  /** Pricing on a positive `k` no larger than the product of the reserves,
      a positive input always buys a positive amount. */
  lemma OutputPositive(k: real, ra: real, rb: real, withFee: real)
    requires 0.0 < k && 0.0 < ra && k <= ra * rb && 0.0 < withFee
    ensures 0.0 < rb - k / (ra + withFee)
  {
    QuotientShrinks(k, ra, ra + withFee);
    var q := k / ra;
    assert q * ra == k;
    if rb < q {
      MulStrict(ra, rb, q);
    }
  }

  /** The invariant a swap keeps, on the weakest hypotheses it needs: with a
      fee in [0, 1), a positive `k` and a positive input-side reserve, an
      accepted swap of a non-negative amount leaves both reserves positive,
      `k` unchanged and at most the product of the new reserves, and the fee
      total on the input side no smaller. Nothing is assumed of the output
      side, the fee totals or the supply, so the lemma also covers pools that
      an earlier negative-amount swap has left with a negative fee total. */
  lemma SwapAToBKeepsReserves(p: Pool, amountIn: real)
    requires 0.0 <= p.fee < 1.0 && 0.0 <= amountIn && 0.0 < p.k && 0.0 < p.reserveA
    requires SwapAToBStep(p, amountIn).Ok?
    ensures var (q, out) := SwapAToBStep(p, amountIn).value;
            && 0.0 < q.reserveA && 0.0 < q.reserveB
            && q.k == p.k && q.k <= q.reserveA * q.reserveB
            && p.feesA <= q.feesA
  {
    var (q, out) := SwapAToBStep(p, amountIn).value;
    var withFee := amountIn * (1.0 - p.fee);
    var feePart := amountIn * p.fee;
    assert 0.0 <= feePart by { MulMono(amountIn, 0.0, p.fee); }
    assert withFee == amountIn - feePart;
    var d := p.reserveA + withFee;
    assert 0.0 < d;
    var nb := p.k / d;
    assert nb * d == p.k;
    assert q.reserveB == nb;
    assert 0.0 < nb;
    assert d <= q.reserveA;
    assert nb * d <= nb * q.reserveA by { MulMono(nb, d, q.reserveA); }
    assert q.reserveA * q.reserveB == nb * q.reserveA;
  }

  /** The mirror image of `SwapAToBKeepsReserves` for `swap_b_to_a`. */
  lemma SwapBToAKeepsReserves(p: Pool, amountIn: real)
    requires 0.0 <= p.fee < 1.0 && 0.0 <= amountIn && 0.0 < p.k && 0.0 < p.reserveB
    requires SwapBToAStep(p, amountIn).Ok?
    ensures var (q, out) := SwapBToAStep(p, amountIn).value;
            && 0.0 < q.reserveA && 0.0 < q.reserveB
            && q.k == p.k && q.k <= q.reserveA * q.reserveB
            && p.feesB <= q.feesB
  {
    SwapMirror(p, amountIn);
    var f := Flip(p);
    SwapAToBKeepsReserves(f, amountIn);
    var (fq, out) := SwapAToBStep(f, amountIn).value;
    assert SwapBToAStep(p, amountIn).value == (Flip(fq), out);
    assert fq.reserveA * fq.reserveB == Flip(fq).reserveA * Flip(fq).reserveB;
  }

  /** `swap_a_to_b` does not check the sign of its amount: a negative amount
      is accepted on a healthy pool, pays out a positive amount and leaves a
      negative fee total, so the pool is no longer healthy. */
  lemma NegativeSwapExample()
    ensures var p := Pool(1000.0, 1000.0, 900000.0, 0.003, 0.0, 0.0, 1000.0);
            && Healthy(p)
            && SwapAToBStep(p, -1.0).Ok?
            && 0.0 < SwapAToBStep(p, -1.0).value.1
            && SwapAToBStep(p, -1.0).value.0.feesA == -0.003
            && !Healthy(SwapAToBStep(p, -1.0).value.0)
  {
    var p := Pool(1000.0, 1000.0, 900000.0, 0.003, 0.0, 0.0, 1000.0);
    assert -1.0 * (1.0 - 0.003) == -0.997;
    assert 900000.0 / 999.003 < 901.0;
  }

  /** A swap of a non-negative amount into a healthy pool keeps it healthy:
      `k` is unchanged and so stays at most the product of the new reserves,
      the fee on the input is added to that side's total, and the supply does
      not move. */
  lemma SwapAToBKeepsHealthy(p: Pool, amountIn: real)
    requires Healthy(p) && 0.0 <= amountIn
    requires SwapAToBStep(p, amountIn).Ok?
    ensures var (q, out) := SwapAToBStep(p, amountIn).value;
            && Healthy(q)
            && q.k == p.k && q.k <= q.reserveA * q.reserveB
            && q.reserveA == p.reserveA + amountIn && q.reserveB == p.reserveB - out
            && q.feesA == p.feesA + amountIn * p.fee && q.feesB == p.feesB
            && q.fee == p.fee && q.lpSupply == p.lpSupply
  {
    SwapAToBKeepsReserves(p, amountIn);
  }

  lemma SwapBToAKeepsHealthy(p: Pool, amountIn: real)
    requires Healthy(p) && 0.0 <= amountIn
    requires SwapBToAStep(p, amountIn).Ok?
    ensures var (q, out) := SwapBToAStep(p, amountIn).value;
            && Healthy(q)
            && q.k == p.k && q.k <= q.reserveA * q.reserveB
            && q.reserveB == p.reserveB + amountIn && q.reserveA == p.reserveA - out
            && q.feesB == p.feesB + amountIn * p.fee && q.feesA == p.feesA
            && q.fee == p.fee && q.lpSupply == p.lpSupply
  {
    SwapBToAKeepsReserves(p, amountIn);
  }

  /** A positive `k` priced on a smaller denominator `d` than the reserve `a`
      that is actually credited leaves `k` below the product of the reserves. */
  lemma RetainedFeeProduct(k: real, d: real, a: real, b: real)
    requires 0.0 < k && 0.0 < d < a && b == k / d
    ensures k < a * b
  {
    assert b * d == k;
    assert 0.0 < b;
    MulStrict(b, d, a);
  }

  /** After a fee-paying swap on a pool whose `k` equals the product of its
      reserves, a swap of nothing pays out a positive amount: the fee kept in
      the reserves is not in `k`, so it can be taken back for free. */
  lemma ZeroSwapPaysOutRetainedFee(p: Pool, amountIn: real)
    requires Healthy(p) && p.k == p.reserveA * p.reserveB
    requires 0.0 < amountIn && 0.0 < p.fee
    ensures SwapAToBStep(p, amountIn).Ok?
    ensures var q := SwapAToBStep(p, amountIn).value.0;
            SwapAToBStep(q, 0.0).Ok? && 0.0 < SwapAToBStep(q, 0.0).value.1
  {
    SwapAToBAccepts(p, amountIn);
    SwapAToBKeepsHealthy(p, amountIn);
    var q := SwapAToBStep(p, amountIn).value.0;
    var withFee := amountIn * (1.0 - p.fee);
    MulStrict(amountIn, 1.0 - p.fee, 1.0);
    MulStrict(amountIn, 0.0, 1.0 - p.fee);
    assert q.reserveB == p.k / (p.reserveA + withFee);
    RetainedFeeProduct(p.k, p.reserveA + withFee, q.reserveA, q.reserveB);
    SwapAToBAccepts(q, 0.0);
  }

  // ---------------------------------------------------------------------------
  // Impermanent loss

  /** No price change, no loss. */
  lemma ImpermanentLossNoChange()
    ensures LiquidityPool.CalculateImpermanentLoss(1.0, 1.0) == Ok(0.0)
  {
  }

  /** The formula as written, 2*sqrt(r)/(1 + sqrt(r)) - 1, is antisymmetric
      under inverting the price ratio: the value for 1/r is minus the value
      for r. */
  lemma ImpermanentLossAntisymmetric(r: real, root: real)
    requires 0.0 < r && IsSqrt(r, root)
    ensures IsSqrt(1.0 / r, 1.0 / root)
    ensures LiquidityPool.CalculateImpermanentLoss(1.0 / r, 1.0 / root).value ==
              -LiquidityPool.CalculateImpermanentLoss(r, root).value
  {
    assert root != 0.0;
    var inv := 1.0 / root;
    assert inv * root == 1.0;
    assert inv * inv * r == 1.0 by {
      assert inv * inv * (root * root) == (inv * root) * (inv * root);
    }
    assert inv * inv == 1.0 / r by {
      CrossRatio(inv * inv, 1.0, 1.0, r);
    }
    var v := LiquidityPool.CalculateImpermanentLoss(r, root).value;
    var w := LiquidityPool.CalculateImpermanentLoss(1.0 / r, inv).value;
    assert v * (root + 1.0) == root - 1.0;
    assert w * (inv + 1.0) == inv - 1.0;
    assert w * (1.0 + root) == 1.0 - root by {
      assert (w * (inv + 1.0)) * root == (inv - 1.0) * root;
      assert (w * (inv + 1.0)) * root == w * (1.0 + root);
      assert (inv - 1.0) * root == 1.0 - root;
    }
    assert (w + v) * (root + 1.0) == 0.0;
  }

  /** The value is zero exactly at no price change, positive for a rising
      ratio and negative for a falling one. */
  lemma ImpermanentLossSign(r: real, root: real)
    requires 0.0 <= r && IsSqrt(r, root)
    ensures var v := LiquidityPool.CalculateImpermanentLoss(r, root).value;
            (v == 0.0 <==> r == 1.0) && (0.0 < v <==> 1.0 < r)
  {
    var v := LiquidityPool.CalculateImpermanentLoss(r, root).value;
    assert v * (root + 1.0) == root - 1.0;
    assert root == 1.0 <==> r == 1.0 by {
      if r == 1.0 { SqrtUnique(1.0, root, 1.0); }
    }
    assert 1.0 < root <==> 1.0 < r by {
      if 1.0 < root { SquareStrict(1.0, root); }
      if root <= 1.0 && 1.0 < r {
        SqrtBetween(r, root, 1.0, 1.0 + r);
        assert false;
      }
    }
    SignOfFactor(v, root + 1.0, root - 1.0);
  }

  /** A factor of a product with a positive cofactor has the product's sign. */
  lemma SignOfFactor(v: real, c: real, prod: real)
    requires 0.0 < c && v * c == prod
    ensures (v == 0.0 <==> prod == 0.0) && (0.0 < v <==> 0.0 < prod)
  {
    if 0.0 < v {
      MulStrict(c, 0.0, v);
    } else {
      MulMono(c, v, 0.0);
    }
  }

  /** At a price ratio of 1.5 the value is about 0.101 (to within 0.0001). */
  lemma ImpermanentLossAtOneAndAHalf(root: real)
    requires IsSqrt(1.5, root)
    ensures var v := LiquidityPool.CalculateImpermanentLoss(1.5, root).value;
            0.1009 <= v <= 0.1011
  {
    SqrtBetween(1.5, root, 1.2247, 1.2248);
    var v := LiquidityPool.CalculateImpermanentLoss(1.5, root).value;
    assert v * (root + 1.0) == root - 1.0;
    assert 0.1009 * (root + 1.0) < root - 1.0;
    assert root - 1.0 < 0.1011 * (root + 1.0);
    if v < 0.1009 {
      MulStrict(root + 1.0, v, 0.1009);
      assert false;
    }
    if 0.1011 < v {
      MulStrict(root + 1.0, 0.1011, v);
      assert false;
    }
  }

  // ---------------------------------------------------------------------------
  // The unit-test scenarios, on a fresh (1000, 1000) pool whose root is 1000

  /** Depositing (100, 100) mints 100 LP tokens and gives reserves of 1100 each. */
  method ScenarioAddLiquidity() returns (minted: Result<real>, reserveA: real, reserveB: real)
    ensures minted == Ok(100.0) && reserveA == 1100.0 && reserveB == 1100.0
  {
    var pool := new LiquidityPool(1000.0, 1000.0, DefaultFee, 1000.0);
    minted := pool.AddLiquidity(100.0, 100.0, DefaultTolerance);
    reserveA, reserveB := pool.tokenAReserve, pool.tokenBReserve;
  }

  /** After that deposit, redeeming 50 LP tokens pays 50 of each token. */
  method ScenarioRemoveLiquidity() returns (paid: Result<(real, real)>)
    ensures paid == Ok((50.0, 50.0))
  {
    var pool := new LiquidityPool(1000.0, 1000.0, DefaultFee, 1000.0);
    var _ := pool.AddLiquidity(100.0, 100.0, DefaultTolerance);
    paid := pool.RemoveLiquidity(50.0);
  }

  /** Swapping 100 in either direction pays about 90.661. */
  method ScenarioSwaps() returns (aToB: Result<real>, bToA: Result<real>)
    ensures aToB.Ok? && 90.660 <= aToB.value <= 90.662
    ensures bToA.Ok? && 90.660 <= bToA.value <= 90.662
  {
    var pool := new LiquidityPool(1000.0, 1000.0, DefaultFee, 1000.0);
    aToB := pool.SwapAToB(100.0);
    var other := new LiquidityPool(1000.0, 1000.0, DefaultFee, 1000.0);
    bToA := other.SwapBToA(100.0);
  }

  /** A balanced pool quotes a rate of 1. */
  method ScenarioExchangeRate() returns (rate: Result<real>)
    ensures rate == Ok(1.0)
  {
    var pool := new LiquidityPool(1000.0, 1000.0, DefaultFee, 1000.0);
    rate := pool.GetExchangeRate();
  }

  /** A (100, 200) deposit is refused as imbalanced, redeeming 2000 LP tokens
      is refused, and neither changes the pool. */
  method ScenarioRejections() returns (deposit: Result<real>, redeem: Result<(real, real)>, untouched: bool)
    ensures deposit == Err(ImbalancedDeposit) && redeem == Err(InsufficientLpTokens) && untouched
  {
    var pool := new LiquidityPool(1000.0, 1000.0, DefaultFee, 1000.0);
    var before := pool.Value();
    deposit := pool.AddLiquidity(100.0, 200.0, DefaultTolerance);
    redeem := pool.RemoveLiquidity(2000.0);
    untouched := pool.Value() == before;
  }
}
