/** Shared vocabulary: the error kinds the core raises, the Result wrapper that
    replaces Python exceptions, and the few pieces of Python's float library the
    core relies on (`abs`, `min`, `math.isclose`, `math.sqrt`), stated over
    Dafny's exact reals. */
module Numeric {

  /** Every way a core operation can fail. The first five are the core's own
      exceptions; the rest are the Python run-time errors its arithmetic and
      library calls raise. */
  datatype Error =
    | PoolExists            // AMMException("Pool already exists")
    | PoolNotFound          // AMMException("Pool not found")
    | ImbalancedDeposit     // LiquidityPoolException: deposit not in the current ratio
    | InsufficientLpTokens  // LiquidityPoolException("Insufficient LP tokens")
    | InsufficientLiquidity // LiquidityPoolException("Insufficient liquidity for this trade")
    | ZeroDivision          // ZeroDivisionError from a float `/`
    | MathDomain            // ValueError from math.sqrt of a negative number
    | InvalidTolerance      // ValueError from math.isclose with a negative rel_tol
    | MalformedPoolKey      // ValueError when `key.split('-')` does not give two parts
    | PercentileOutOfRange  // ValueError from numpy.percentile with q outside [0, 100]
    | EmptySample           // numpy.percentile of an empty array

  datatype Result<T> = Ok(value: T) | Err(error: Error)

  datatype Option<T> = None | Some(value: T)

  function Abs(x: real): (r: real)
    ensures 0.0 <= r && (r == x || r == -x)
  {
    if x < 0.0 then -x else x
  }

  /** Python's two-argument `min`: the first argument unless the second is strictly smaller. */
  function PyMin(x: real, y: real): (r: real)
    ensures r <= x && r <= y && (r == x || r == y)
  {
    if y < x then y else x
  }

  /** `math.isclose(a, b, rel_tol=relTol)` with the default `abs_tol=0.0`, as
      CPython evaluates it once the tolerance has been checked to be non-negative. */
  predicate IsClose(a: real, b: real, relTol: real)
  {
    a == b || Abs(b - a) <= Abs(relTol * b) || Abs(b - a) <= Abs(relTol * a)
  }

  /** For a non-negative tolerance, `isclose` is the relative test: the
      difference is within `relTol` times the magnitude of one of the two
      operands (so within `relTol` times the larger one). */
  lemma IsCloseRelative(a: real, b: real, relTol: real)
    requires 0.0 <= relTol
    ensures IsClose(a, b, relTol) <==> WithinRelTol(a, b, relTol)
  {
    AbsScale(relTol, a);
    AbsScale(relTol, b);
    assert Abs(a - b) == Abs(b - a);
    if a == b {
      assert 0.0 <= relTol * Abs(a) by { MulMono(relTol, 0.0, Abs(a)); }
    }
  }

  /** The relative test: the difference is within `relTol` times the magnitude
      of one of the two operands. */
  predicate WithinRelTol(a: real, b: real, relTol: real)
  {
    Abs(a - b) <= relTol * Abs(a) || Abs(a - b) <= relTol * Abs(b)
  }

  lemma AbsScale(t: real, x: real)
    requires 0.0 <= t
    ensures Abs(t * x) == t * Abs(x)
  {
    if x < 0.0 {
      assert t * x <= 0.0;
    } else {
      assert t * x >= 0.0;
    }
  }

  /** `s` is what `math.sqrt(x)` returns: the non-negative square root. The
      model takes roots as inputs constrained by this predicate. */
  predicate IsSqrt(x: real, s: real)
  {
    0.0 <= s && s * s == x
  }

  /** A root lies between any two non-negative numbers whose squares bracket its square. */
  lemma SqrtBetween(x: real, s: real, lo: real, hi: real)
    requires IsSqrt(x, s)
    requires 0.0 <= lo && lo * lo <= x
    requires 0.0 <= hi && x <= hi * hi
    ensures lo <= s <= hi
  {
    if s < lo {
      SquareStrict(s, lo);
    }
    if hi < s {
      SquareStrict(hi, s);
    }
  }

  lemma SquareStrict(x: real, y: real)
    requires 0.0 <= x < y
    ensures x * x < y * y
  {
    var xx, xy, yy := x * x, x * y, y * y;
    assert xx <= xy;
    assert xy < yy;
  }

  lemma MulMono(c: real, x: real, y: real)
    requires 0.0 <= c && x <= y
    ensures c * x <= c * y && x * c <= y * c
  {
    var d := y - x;
    assert c * y == c * x + c * d;
  }

  lemma MulStrict(c: real, x: real, y: real)
    requires 0.0 < c && x < y
    ensures c * x < c * y && x * c < y * c
  {
    var d := y - x;
    assert c * y == c * x + c * d;
  }

  /** `x * (1 + rate)`: an amount grown by a rate. */
  function Grow(x: real, rate: real): real
  {
    x * (1.0 + rate)
  }

  /** A positive part of a positive whole is a fraction in (0, 1]. */
  lemma FractionBounds(part: real, whole: real)
    requires 0.0 < part <= whole
    ensures 0.0 < part / whole <= 1.0
  {
    var f := part / whole;
    assert f * whole == part;
    if 1.0 < f {
      MulStrict(whole, 1.0, f);
    }
  }

  /** A quotient of a positive number by one no larger is at least 1. */
  lemma RatioAtLeastOne(num: real, den: real)
    requires 0.0 < den <= num
    ensures 1.0 <= num / den
  {
    var q := num / den;
    assert q * den == num;
    if q < 1.0 {
      MulStrict(den, q, 1.0);
    }
  }

  /** The square root is unique. */
  lemma SqrtUnique(x: real, s: real, t: real)
    requires IsSqrt(x, s) && IsSqrt(x, t)
    ensures s == t
  {
    SqrtBetween(x, s, t, t);
  }
}

/** The four tuning constants of `defi_amm.config`. Their values are not part
    of this model, so each is an unspecified positive real. */
module Config {
  type PosReal = x: real | 0.0 < x witness 1.0

  /** Largest rebalancing bonus (the code's comment calls it 2%). */
  const BalanceMaxIncentive: PosReal
  /** Volume at which the volume factor of the fee adjustment saturates. */
  const VolumeThreshold: PosReal
  /** Reserve imbalance at which the imbalance factor saturates. */
  const MaxImbalance: PosReal
  /** Cap on a pool's swap fee after adjustment. */
  const MaxFee: PosReal
}
