/** The pool registry (`AMM`).

    The registry files each pool under the canonical key `min-max` of its two
    symbols (see `Symbols.PoolKey`) and keeps, per key, the time and running
    total of the last simulated trade. Python's `dict` keeps insertion order,
    which the aggregate views iterate in; the model keeps that order as a
    sequence of keys beside the map. Every operation that changes a pool is
    specified by a step function on `Pool` values, and every operation that
    only reads is a function or a method without `modifies`. */
module Registry {
  import opened Numeric
  import opened Symbols
  import opened LiquidityPools
  import Config

  /** The window `adjust_fee` asks `calculate_recent_volume` for (one hour). */
  const FeeVolumeWindow: real := 3600.0

  // ---------------------------------------------------------------------------
  // Delegation

  /** Where a registry operation on `key` leaves the pool values: failing
      before the pool is found changes nothing; otherwise the pool under `key`
      moves as its own step says and every other pool keeps its value. */
  predicate AppliedAt<T(==)>(before: map<string, Pool>, after: map<string, Pool>, key: string,
                             r: Result<T>, step: Result<(Pool, T)>)
    requires key in before
  {
    key in after && after == before[key := after[key]] && Applied(before[key], after[key], r, step)
  }

  /** Which of the pool's swaps `AMM.swap` calls: `swap_a_to_b` exactly when
      the source symbol sorts before the target symbol. */
  function SwapStep(p: Pool, tokenFrom: string, tokenTo: string, amount: real): Result<(Pool, real)>
  {
    if Less(tokenFrom, tokenTo) then SwapAToBStep(p, amount) else SwapBToAStep(p, amount)
  }

  /** Both branches of `swap` credit the side of the key that `tokenFrom`
      names: side A (the first part of the key) when it sorts first, side B
      otherwise. So an accepted swap adds the input, and the fee on it, to the
      reserve and the fee total the key attributes to `tokenFrom`, and pays
      the output from the other side, whatever order the pool was created
      in. */
  lemma SwapCreditsFromSide(p: Pool, tokenFrom: string, tokenTo: string, amount: real)
    requires '-' !in tokenFrom && '-' !in tokenTo && tokenFrom != tokenTo
    ensures var parts := Split(PoolKey(tokenFrom, tokenTo), '-');
            |parts| == 2 &&
            (Less(tokenFrom, tokenTo) ==> parts[0] == tokenFrom && parts[1] == tokenTo) &&
            (!Less(tokenFrom, tokenTo) ==> parts[1] == tokenFrom && parts[0] == tokenTo)
    ensures SwapStep(p, tokenFrom, tokenTo, amount).Ok? && Less(tokenFrom, tokenTo) ==>
              var (q, out) := SwapStep(p, tokenFrom, tokenTo, amount).value;
              && q.reserveA == p.reserveA + amount && q.feesA == p.feesA + amount * p.fee
              && q.reserveB == p.reserveB - out && q.feesB == p.feesB
    ensures SwapStep(p, tokenFrom, tokenTo, amount).Ok? && !Less(tokenFrom, tokenTo) ==>
              var (q, out) := SwapStep(p, tokenFrom, tokenTo, amount).value;
              && q.reserveB == p.reserveB + amount && q.feesB == p.feesB + amount * p.fee
              && q.reserveA == p.reserveA - out && q.feesA == p.feesA
  {
    SplitPoolKey(tokenFrom, tokenTo);
    LessTotal(tokenFrom, tokenTo);
    LessAsymmetric(tokenFrom, tokenTo);
    SwapStepCredits(p, Less(tokenFrom, tokenTo), amount);
  }

  /** What an accepted swap changes, by direction. */
  lemma SwapStepCredits(p: Pool, aToB: bool, amount: real)
    ensures var step := if aToB then SwapAToBStep(p, amount) else SwapBToAStep(p, amount);
            step.Ok? ==>
              var (q, out) := step.value;
              if aToB then
                && q.reserveA == p.reserveA + amount && q.feesA == p.feesA + amount * p.fee
                && q.reserveB == p.reserveB - out && q.feesB == p.feesB
              else
                && q.reserveB == p.reserveB + amount && q.feesB == p.feesB + amount * p.fee
                && q.reserveA == p.reserveA - out && q.feesA == p.feesA
  {
  }

  // ---------------------------------------------------------------------------
  // Aggregates: `get_total_value_locked` and `calculate_fees_earned`

  /** `d.get(t, 0)`. */
  function Get(m: map<string, real>, t: string): real
  {
    if t in m then m[t] else 0.0
  }

  /** `d[t] = d.get(t, 0) + x`. */
  function AddTo(m: map<string, real>, t: string, x: real): (r: map<string, real>)
    ensures r.Keys == m.Keys + {t} && Get(r, t) == Get(m, t) + x
    ensures forall u :: u != t ==> Get(r, u) == Get(m, u)
  {
    m[t := Get(m, t) + x]
  }

  /** The reserves of every pool, side A then side B. */
  function Reserves(vs: map<string, Pool>): map<string, (real, real)>
  {
    map key | key in vs :: (vs[key].reserveA, vs[key].reserveB)
  }

  /** The fee totals of every pool, side A then side B. */
  function Fees(vs: map<string, Pool>): map<string, (real, real)>
  {
    map key | key in vs :: (vs[key].feesA, vs[key].feesB)
  }

  /** The loop both aggregates run: for each key in order, split it at `-`
      (failing unless that gives exactly two symbols) and add the pool's side-A
      amount to the first symbol and its side-B amount to the second. */
  function Accumulate(keys: seq<string>, amounts: map<string, (real, real)>, acc: map<string, real>): Result<map<string, real>>
    requires forall key :: key in keys ==> key in amounts
    decreases |keys|
  {
    if |keys| == 0 then Ok(acc)
    else
      var parts := Split(keys[0], '-');
      if |parts| != 2 then Err(MalformedPoolKey)
      else
        var (a, b) := amounts[keys[0]];
        Accumulate(keys[1..], amounts, AddTo(AddTo(acc, parts[0], a), parts[1], b))
  }

  /** Reference definition: what the pools under `keys` contribute to symbol
      `t`, summed pool by pool. */
  function Contribution(keys: seq<string>, amounts: map<string, (real, real)>, t: string): real
    requires forall key :: key in keys ==> key in amounts
    decreases |keys|
  {
    if |keys| == 0 then 0.0
    else
      var parts := Split(keys[0], '-');
      var (a, b) := amounts[keys[0]];
      var here := if |parts| == 2 then (if parts[0] == t then a else 0.0) + (if parts[1] == t then b else 0.0) else 0.0;
      here + Contribution(keys[1..], amounts, t)
  }

  /** Reference definition: both sides of every pool under `keys`, summed. */
  function BothSides(keys: seq<string>, amounts: map<string, (real, real)>): real
    requires forall key :: key in keys ==> key in amounts
    decreases |keys|
  {
    if |keys| == 0 then 0.0 else amounts[keys[0]].0 + amounts[keys[0]].1 + BothSides(keys[1..], amounts)
  }

  /** Every key under `keys` splits into exactly two symbols. */
  predicate WellFormedKeys(keys: seq<string>)
  {
    forall i :: 0 <= i < |keys| ==> |Split(keys[i], '-')| == 2
  }

  /** The sum of all values of a map. */
  ghost function MapTotal(m: map<string, real>): real
    decreases |m.Keys|
  {
    if m == map[] then 0.0
    else
      var t :| t in m;
      m[t] + MapTotal(m - {t})
  }

  /** `MapTotal` may take its keys in any order. */
  lemma {:induction false} MapTotalRemove(m: map<string, real>, t: string)
    requires t in m
    ensures MapTotal(m) == m[t] + MapTotal(m - {t})
    decreases |m.Keys|
  {
    assert m != map[];
    var u :| u in m && MapTotal(m) == m[u] + MapTotal(m - {u});
    if u != t {
      var mu, mt := m - {u}, m - {t};
      assert mu.Keys == m.Keys - {u} && mt.Keys == m.Keys - {t};
      assert t in mu && u in mt;
      MapTotalRemove(mu, t);
      MapTotalRemove(mt, u);
      assert mu - {t} == mt - {u};
    }
  }

  lemma MapTotalAddTo(m: map<string, real>, t: string, x: real)
    ensures MapTotal(AddTo(m, t, x)) == MapTotal(m) + x
  {
    var r := AddTo(m, t, x);
    MapTotalRemove(r, t);
    if t in m {
      MapTotalRemove(m, t);
      assert r - {t} == m - {t};
    } else {
      assert r - {t} == m;
    }
  }

  /** The fold fails exactly when some key does not split into two symbols. */
  lemma {:induction false} AccumulateFails(keys: seq<string>, amounts: map<string, (real, real)>, acc: map<string, real>)
    requires forall key :: key in keys ==> key in amounts
    ensures Accumulate(keys, amounts, acc).Ok? <==> WellFormedKeys(keys)
    ensures Accumulate(keys, amounts, acc).Err? ==> Accumulate(keys, amounts, acc) == Err(MalformedPoolKey)
    decreases |keys|
  {
    if |keys| > 0 {
      var parts := Split(keys[0], '-');
      assert WellFormedKeys(keys) <==> |parts| == 2 && WellFormedKeys(keys[1..]) by {
        if |parts| == 2 && WellFormedKeys(keys[1..]) {
          forall i | 0 <= i < |keys| ensures |Split(keys[i], '-')| == 2 {
            if i > 0 { assert keys[i] == keys[1..][i - 1]; }
          }
        }
        if WellFormedKeys(keys) {
          forall i | 0 <= i < |keys[1..]| ensures |Split(keys[1..][i], '-')| == 2 {
            assert keys[1..][i] == keys[i + 1];
          }
        }
      }
      if |parts| == 2 {
        var (a, b) := amounts[keys[0]];
        AccumulateFails(keys[1..], amounts, AddTo(AddTo(acc, parts[0], a), parts[1], b));
      }
    }
  }

  /** Symbol `t` is one of the parts of some key in `keys`. */
  predicate Mentions(keys: seq<string>, t: string)
  {
    exists i :: 0 <= i < |keys| && t in Split(keys[i], '-')
  }

  lemma MentionsCons(keys: seq<string>, t: string)
    requires 0 < |keys|
    ensures Mentions(keys, t) <==> t in Split(keys[0], '-') || Mentions(keys[1..], t)
  {
    if Mentions(keys, t) {
      var i :| 0 <= i < |keys| && t in Split(keys[i], '-');
      if i > 0 { assert keys[i] == keys[1..][i - 1]; }
    }
    if Mentions(keys[1..], t) {
      var i :| 0 <= i < |keys[1..]| && t in Split(keys[1..][i], '-');
      assert keys[1..][i] == keys[i + 1];
    }
  }

  /** One step of the fold: adding the two sides of a pool to their symbols. */
  lemma AddPairFacts(acc: map<string, real>, x: string, y: string, a: real, b: real, t: string)
    ensures var next := AddTo(AddTo(acc, x, a), y, b);
            && (t in next <==> t in acc || t in [x, y])
            && Get(next, t) == Get(acc, t) + (if x == t then a else 0.0) + (if y == t then b else 0.0)
  {
  }

  /** Per symbol, the fold adds to the starting map exactly what the pools
      contribute to that symbol, and the symbols it reports are the starting
      ones plus those that occur in some key. */
  lemma {:induction false} AccumulatePerToken(keys: seq<string>, amounts: map<string, (real, real)>, acc: map<string, real>, t: string)
    requires forall key :: key in keys ==> key in amounts
    requires Accumulate(keys, amounts, acc).Ok?
    ensures Get(Accumulate(keys, amounts, acc).value, t) == Get(acc, t) + Contribution(keys, amounts, t)
    ensures t in Accumulate(keys, amounts, acc).value <==> t in acc || Mentions(keys, t)
    decreases |keys|
  {
    if |keys| > 0 {
      var parts := Split(keys[0], '-');
      var (a, b) := amounts[keys[0]];
      var next := AddTo(AddTo(acc, parts[0], a), parts[1], b);
      AccumulatePerToken(keys[1..], amounts, next, t);
      AddPairFacts(acc, parts[0], parts[1], a, b, t);
      assert parts == [parts[0], parts[1]];
      MentionsCons(keys, t);
    }
  }

  /** The values the fold reports add up to the starting total plus both
      sides of every pool. */
  lemma {:induction false} AccumulateTotal(keys: seq<string>, amounts: map<string, (real, real)>, acc: map<string, real>)
    requires forall key :: key in keys ==> key in amounts
    requires Accumulate(keys, amounts, acc).Ok?
    ensures MapTotal(Accumulate(keys, amounts, acc).value) == MapTotal(acc) + BothSides(keys, amounts)
    decreases |keys|
  {
    if |keys| > 0 {
      var parts := Split(keys[0], '-');
      var (a, b) := amounts[keys[0]];
      var mid := AddTo(acc, parts[0], a);
      MapTotalAddTo(acc, parts[0], a);
      MapTotalAddTo(mid, parts[1], b);
      AccumulateTotal(keys[1..], amounts, AddTo(mid, parts[1], b));
    }
  }

  // ---------------------------------------------------------------------------
  // Rebalancing incentive

  /** `calculate_rebalancing_incentive` on a pool with reserves `(ra, rb)`:
      how much closer to 1 the A/B ratio gets, relative to how far it was,
      scaled by the largest bonus. */
  function RebalancingIncentive(ra: real, rb: real, amountA: real, amountB: real): Result<real>
  {
    if rb == 0.0 || rb + amountB == 0.0 then Err(ZeroDivision)
    else
      var currentImbalance := Abs(ra / rb - 1.0);
      var newImbalance := Abs((ra + amountA) / (rb + amountB) - 1.0);
      var improvement := currentImbalance - newImbalance;
      if improvement > 0.0 then
        var incentive := Config.BalanceMaxIncentive * (improvement / currentImbalance);
        Ok(PyMin(incentive, Config.BalanceMaxIncentive))
      else Ok(0.0)
  }

  /** The incentive lies in [0, largest bonus]; it is positive exactly when the
      deposit strictly reduces the distance of the A/B ratio from 1, and then
      it is that reduction's fraction of the old distance times the largest
      bonus, so the cap never binds. */
  lemma IncentiveBounds(ra: real, rb: real, amountA: real, amountB: real)
    requires RebalancingIncentive(ra, rb, amountA, amountB).Ok?
    ensures var r := RebalancingIncentive(ra, rb, amountA, amountB).value;
            var before, after := Abs(ra / rb - 1.0), Abs((ra + amountA) / (rb + amountB) - 1.0);
            && 0.0 <= r <= Config.BalanceMaxIncentive
            && (0.0 < r <==> after < before)
            && (after < before ==> r * before == Config.BalanceMaxIncentive * (before - after))
  {
    var before, after := Abs(ra / rb - 1.0), Abs((ra + amountA) / (rb + amountB) - 1.0);
    if after < before {
      var improvement := before - after;
      assert 0.0 <= after && 0.0 < improvement <= before;
      var fraction := improvement / before;
      assert fraction * before == improvement;
      FractionBounds(improvement, before);
      var m := Config.BalanceMaxIncentive;
      MulStrict(m, 0.0, fraction);
      MulMono(m, fraction, 1.0);
      assert m * fraction * before == m * improvement;
    }
  }

  /** The step of `add_liquidity_with_incentive`: the incentive is read off
      the reserves before the deposit, the deposit itself is an ordinary
      `add_liquidity`, and the caller is told `minted * (1 + incentive)`. */
  function DepositWithIncentiveStep(p: Pool, amountA: real, amountB: real): Result<(Pool, real)>
  {
    Boosted(RebalancingIncentive(p.reserveA, p.reserveB, amountA, amountB),
            DepositStep(p, amountA, amountB, DefaultTolerance))
  }

  /** A deposit outcome with its minted amount scaled by one plus the
      incentive; a failed incentive computation comes first. */
  function Boosted(incentive: Result<real>, deposit: Result<(Pool, real)>): Result<(Pool, real)>
  {
    if incentive.Err? then Err(incentive.error)
    else if deposit.Err? then Err(deposit.error)
    else Ok((deposit.value.0, Grow(deposit.value.1, incentive.value)))
  }

  /** The registry-level outcome of `add_liquidity_with_incentive` follows
      from the incentive and the plain deposit's outcome. */
  lemma BoostedAt(before: map<string, Pool>, after: map<string, Pool>, key: string, incentive: real,
                  deposit: Result<(Pool, real)>, minted: Result<real>, r: Result<real>)
    requires key in before
    requires AppliedAt(before, after, key, minted, deposit)
    requires minted.Ok? ==> r == Ok(Grow(minted.value, incentive))
    requires minted.Err? ==> r == Err(minted.error)
    ensures AppliedAt(before, after, key, r, Boosted(Ok(incentive), deposit))
  {
  }

  /** The bonus is reported but never minted: the pool ends exactly as after a
      plain deposit, its LP supply grows by the un-boosted amount only, and the
      reported amount is that growth times one plus the incentive. */
  lemma IncentiveNotMinted(p: Pool, amountA: real, amountB: real)
    requires DepositWithIncentiveStep(p, amountA, amountB).Ok?
    ensures var (q, reported) := DepositWithIncentiveStep(p, amountA, amountB).value;
            var incentive := RebalancingIncentive(p.reserveA, p.reserveB, amountA, amountB).value;
            && DepositStep(p, amountA, amountB, DefaultTolerance).Ok?
            && q == DepositStep(p, amountA, amountB, DefaultTolerance).value.0
            && reported == Grow(q.lpSupply - p.lpSupply, incentive)
            && (0.0 < q.lpSupply - p.lpSupply ==> q.lpSupply - p.lpSupply <= reported)
  {
    var incentive := RebalancingIncentive(p.reserveA, p.reserveB, amountA, amountB).value;
    IncentiveBounds(p.reserveA, p.reserveB, amountA, amountB);
    assert DepositStep(p, amountA, amountB, DefaultTolerance).value == Deposited(p, amountA, amountB);
    DepositMintsProRata(p, amountA, amountB);
    var minted := Deposited(p, amountA, amountB).1;
    if 0.0 < minted {
      MulMono(minted, 1.0, 1.0 + incentive);
    }
  }

  // ---------------------------------------------------------------------------
  // Recent volume and fee adjustment

  /** The per-pool record `calculate_recent_volume` keeps: the time of the
      last trade and the running volume. */
  datatype Tracker = Tracker(time: real, volume: real)

  /** One call of `calculate_recent_volume` at clock reading `now` with random
      trade size `sample`: an unseen pool starts at `(now, 0)`; the running
      total resets when more than `window` has passed; the sample is added and
      the time recorded; the answer is the total scaled up to the window when
      less than the window has passed, and the total otherwise. The record is
      updated even when the scaling divides by zero. */
  function VolumeStep(prior: Option<Tracker>, now: real, window: real, sample: real): (Tracker, Result<real>)
  {
    var start := if prior.None? then Tracker(now, 0.0) else prior.value;
    var elapsed := now - start.time;
    var base := if elapsed > window then 0.0 else start.volume;
    var total := base + sample;
    var after := Tracker(now, total);
    if elapsed < window then
      if elapsed == 0.0 then (after, Err(ZeroDivision))
      else (after, Ok(ScaledToWindow(total, window, elapsed)))
    else (after, Ok(total))
  }

  /** A volume observed over `elapsed` scaled up to `window`. */
  function ScaledToWindow(volume: real, window: real, elapsed: real): real
    requires elapsed != 0.0
  {
    volume * (window / elapsed)
  }

  /** The record after a call holds the call's time and the previous total
      (zero when the window has lapsed or the pool is new) plus the sample; a
      positive window makes a pool's first call divide by zero, and a call
      within the window after a strictly earlier one reports at least the
      accumulated total. */
  lemma VolumeStepFacts(prior: Option<Tracker>, now: real, window: real, sample: real)
    ensures var (after, r) := VolumeStep(prior, now, window, sample);
            && after.time == now
            && (prior.None? ==> after.volume == sample)
            && (prior.Some? && now - prior.value.time > window ==> after.volume == sample)
            && (prior.Some? && now - prior.value.time <= window ==> after.volume == prior.value.volume + sample)
            && (prior.None? && 0.0 < window ==> r == Err(ZeroDivision))
            && (prior.Some? && prior.value.time < now < prior.value.time + window && 0.0 <= after.volume ==>
                  r.Ok? && after.volume <= r.value && r.value * (now - prior.value.time) == after.volume * window)
            && (prior.Some? && prior.value.time + window <= now ==> r == Ok(after.volume))
  {
    var (after, r) := VolumeStep(prior, now, window, sample);
    if prior.Some? && prior.value.time < now < prior.value.time + window && 0.0 <= after.volume {
      var elapsed := now - prior.value.time;
      assert 0.0 < elapsed < window;
      var factor := window / elapsed;
      assert factor * elapsed == window;
      RatioAtLeastOne(window, elapsed);
      MulMono(after.volume, 1.0, factor);
      assert r.value == after.volume * factor;
    }
  }

  /** The new fee `adjust_fee` sets on a pool with fee `fee` and reserves
      `(ra, rb)` given the recent volume: the fee grows by a volume factor and
      an imbalance factor, each capped at 1, and the result is capped at the
      largest fee. */
  function AdjustedFee(fee: real, volume: real, ra: real, rb: real): Result<real>
  {
    var volumeFactor := PyMin(volume / Config.VolumeThreshold, 1.0);
    if rb == 0.0 then Err(ZeroDivision)
    else
      var imbalanceFactor := PyMin(Abs(ra / rb - 1.0) / Config.MaxImbalance, 1.0);
      Ok(PyMin(Grow(Grow(fee, volumeFactor), imbalanceFactor), Config.MaxFee))
  }

  /** A factor of `1 + x` with `x` in [0, 1] scales a non-negative amount
      to somewhere between itself and twice itself. */
  lemma GrowthBetween(amount: real, x: real)
    requires 0.0 <= amount && 0.0 <= x <= 1.0
    ensures amount <= Grow(amount, x) <= 2.0 * amount
  {
    assert Grow(amount, x) == amount * (1.0 + x);
    MulMono(amount, 1.0, 1.0 + x);
    MulMono(amount, 1.0 + x, 2.0);
  }

  /** The adjusted fee never exceeds the largest fee; for a non-negative fee
      and volume it is at least the old fee when the old fee is within the cap,
      and at most four times the old fee; on a balanced pool with no volume it
      is the old fee, capped. */
  lemma AdjustedFeeBounds(fee: real, volume: real, ra: real, rb: real)
    requires rb != 0.0
    ensures AdjustedFee(fee, volume, ra, rb).Ok?
    ensures var f := AdjustedFee(fee, volume, ra, rb).value;
            && f <= Config.MaxFee
            && (0.0 <= fee && 0.0 <= volume ==> f <= 4.0 * fee)
            && (0.0 <= fee <= Config.MaxFee && 0.0 <= volume ==> fee <= f)
            && (volume == 0.0 && ra == rb ==> f == PyMin(fee, Config.MaxFee))
  {
    var vf := PyMin(volume / Config.VolumeThreshold, 1.0);
    var imf := PyMin(Abs(ra / rb - 1.0) / Config.MaxImbalance, 1.0);
    var grown := Grow(fee, vf);
    var raw := Grow(grown, imf);
    assert AdjustedFee(fee, volume, ra, rb) == Ok(PyMin(raw, Config.MaxFee));
    assert 0.0 <= imf <= 1.0 by {
      assert 0.0 <= Abs(ra / rb - 1.0) / Config.MaxImbalance;
    }
    if 0.0 <= fee && 0.0 <= volume {
      assert 0.0 <= vf <= 1.0 by {
        assert 0.0 <= volume / Config.VolumeThreshold;
      }
      GrowthBetween(fee, vf);
      GrowthBetween(grown, imf);
    }
    if volume == 0.0 && ra == rb {
      assert ra / rb == 1.0;
      assert vf == 0.0 && imf == 0.0;
    }
  }

  /** The record `calculate_recent_volume` starts from for `key`. */
  function Prior(times: map<string, real>, volumes: map<string, real>, key: string): Option<Tracker>
  {
    if key in times && key in volumes then Some(Tracker(times[key], volumes[key])) else None
  }

  /** The bookkeeping of `calculate_recent_volume` on the two dictionaries
      `last_trade_time` and `last_trade_volume`, updated in the order the
      source updates them: the new records are those of the volume step at
      `key` and every other record is kept. */
  method RecordTrade(times: map<string, real>, volumes: map<string, real>, key: string, window: real, now: real, sample: real)
    returns (times': map<string, real>, volumes': map<string, real>, r: Result<real>)
    requires times.Keys == volumes.Keys
    ensures var (after, result) := VolumeStep(Prior(times, volumes, key), now, window, sample);
            && r == result
            && times' == times[key := after.time]
            && volumes' == volumes[key := after.volume]
  {
    times', volumes' := times, volumes;
    if key !in times' {
      times' := times'[key := now];
      volumes' := volumes'[key := 0.0];
    }
    var elapsed := now - times'[key];
    if elapsed > window {
      volumes' := volumes'[key := 0.0];
    }
    volumes' := volumes'[key := volumes'[key] + sample];
    times' := times'[key := now];
    if elapsed < window {
      if elapsed == 0.0 {
        return times', volumes', Err(ZeroDivision);
      }
      r := Ok(ScaledToWindow(volumes'[key], window, elapsed));
    } else {
      r := Ok(volumes'[key]);
    }
  }

  /** The pool step of `adjust_fee` once the recent volume is known: a failed
      volume computation or a failed fee computation changes nothing, and
      otherwise only the fee changes. */
  function FeeStep(p: Pool, volume: Result<real>): Result<(Pool, ())>
  {
    if volume.Err? then Err(volume.error)
    else
      var f := AdjustedFee(p.fee, volume.value, p.reserveA, p.reserveB);
      if f.Err? then Err(f.error) else Ok((p.(fee := f.value), ()))
  }

  /** The fee `adjust_fee` computes factor by factor is the one `FeeStep` sets. */
  lemma FeeStepIs(p: Pool, volume: real, volumeFactor: real, imbalanceFactor: real, newFee: real)
    requires p.reserveB != 0.0
    requires volumeFactor == PyMin(volume / Config.VolumeThreshold, 1.0)
    requires imbalanceFactor == PyMin(Abs(p.reserveA / p.reserveB - 1.0) / Config.MaxImbalance, 1.0)
    requires newFee == PyMin(Grow(Grow(p.fee, volumeFactor), imbalanceFactor), Config.MaxFee)
    ensures FeeStep(p, Ok(volume)) == Ok((p.(fee := newFee), ()))
  {
  }

  /** `adjust_fee` touches nothing but the fee, and leaves the fee within the
      cap whenever it succeeds. */
  lemma FeeStepOnlyFee(p: Pool, volume: Result<real>)
    requires FeeStep(p, volume).Ok?
    ensures var q := FeeStep(p, volume).value.0;
            q == p.(fee := q.fee) && q.fee <= Config.MaxFee
            && (0.0 <= p.fee <= Config.MaxFee && 0.0 <= volume.value ==> p.fee <= q.fee)
  {
    AdjustedFeeBounds(p.fee, volume.value, p.reserveA, p.reserveB);
  }

  // ---------------------------------------------------------------------------
  // The registry object

  class AMM {
    /** The pool keys in insertion order (the iteration order of `pools`). */
    var order: seq<string>
    var pools: map<string, LiquidityPool>
    var lastTradeTime: map<string, real>
    var lastTradeVolume: map<string, real>

    /** The keys of `pools` are those of `order`, each listed once; distinct
        keys hold distinct pool objects; the two trade records are kept for
        the same keys. */
    ghost predicate Valid()
      reads this
    {
      && (forall key :: key in pools <==> key in order)
      && (forall i, j :: 0 <= i < j < |order| ==> order[i] != order[j])
      && (forall k1, k2 :: k1 in pools && k2 in pools && k1 != k2 ==> pools[k1] != pools[k2])
      && lastTradeTime.Keys == lastTradeVolume.Keys
    }

    /** The value of every pool, by key. */
    function Values(): map<string, Pool>
      reads this, pools.Values
    {
      map key | key in pools :: pools[key].Value()
    }

    /** The pool object under `key`, as a frame, if there is one. */
    function PoolsAt(key: string): set<object>
      reads this
    {
      if key in pools then {pools[key]} else {}
    }

    constructor ()
      ensures Valid() && order == [] && pools == map[]
      ensures lastTradeTime == map[] && lastTradeVolume == map[]
    {
      order := [];
      pools := map[];
      lastTradeTime := map[];
      lastTradeVolume := map[];
    }

    /** `create_pool`; `root` is `math.sqrt(initialA * initialB)`. A taken key
        is refused; a negative product makes the pool's constructor fail.
        Otherwise a fresh pool over the amounts, in argument order, is added
        under the canonical key, after all existing ones. */
    method CreatePool(tokenA: string, tokenB: string, initialA: real, initialB: real, root: real) returns (r: Result<()>)
      requires Valid()
      requires 0.0 <= initialA * initialB ==> IsSqrt(initialA * initialB, root)
      modifies this
      ensures Valid()
      ensures lastTradeTime == old(lastTradeTime) && lastTradeVolume == old(lastTradeVolume)
      ensures var key := PoolKey(tokenA, tokenB);
              if key in old(pools) then
                r == Err(PoolExists) && pools == old(pools) && order == old(order)
              else if initialA * initialB < 0.0 then
                r == Err(MathDomain) && pools == old(pools) && order == old(order)
              else
                && r == Ok(())
                && key in pools && fresh(pools[key])
                && pools == old(pools)[key := pools[key]]
                && order == old(order) + [key]
                && pools[key].Value() == Initial(initialA, initialB, DefaultFee, root)
    {
      var key := PoolKey(tokenA, tokenB);
      if key in pools {
        return Err(PoolExists);
      }
      if initialA * initialB < 0.0 {
        return Err(MathDomain);
      }
      var pool := new LiquidityPool(initialA, initialB, DefaultFee, root);
      pools := pools[key := pool];
      order := order + [key];
      r := Ok(());
    }

    /** `get_pool`: the pool under the canonical key of the two symbols, given
        in either order, or an error when there is none. */
    function GetPool(tokenA: string, tokenB: string): (r: Result<LiquidityPool>)
      reads this
      ensures r.Ok? <==> PoolKey(tokenA, tokenB) in pools
      ensures r.Ok? ==> r.value == pools[PoolKey(tokenA, tokenB)]
      ensures r.Err? ==> r == Err(PoolNotFound)
    {
      PoolKeyCanonical(tokenA, tokenB);
      var key := PoolKey(tokenA, tokenB);
      if key in pools then Ok(pools[key]) else Err(PoolNotFound)
    }

    /** The pair may be named in either order. */
    lemma GetPoolSymmetric(tokenA: string, tokenB: string)
      ensures GetPool(tokenA, tokenB) == GetPool(tokenB, tokenA)
    {
      PoolKeyCanonical(tokenA, tokenB);
    }

    /** `add_liquidity` on the pair's pool, with the default tolerance. */
    method AddLiquidity(tokenA: string, tokenB: string, amountA: real, amountB: real) returns (r: Result<real>)
      requires Valid()
      modifies PoolsAt(PoolKey(tokenA, tokenB))
      ensures Valid()
      ensures var key := PoolKey(tokenA, tokenB);
              if key !in pools then r == Err(PoolNotFound) && Values() == old(Values())
              else AppliedAt(old(Values()), Values(), key, r,
                             DepositStep(old(Values())[key], amountA, amountB, DefaultTolerance))
    {
      var key := PoolKey(tokenA, tokenB);
      if key !in pools {
        return Err(PoolNotFound);
      }
      var pool := pools[key];
      r := pool.AddLiquidity(amountA, amountB, DefaultTolerance);
      OthersUnchanged(key);
    }

    /** `remove_liquidity` on the pair's pool. */
    method RemoveLiquidity(tokenA: string, tokenB: string, lpTokens: real) returns (r: Result<(real, real)>)
      requires Valid()
      modifies PoolsAt(PoolKey(tokenA, tokenB))
      ensures Valid()
      ensures var key := PoolKey(tokenA, tokenB);
              if key !in pools then r == Err(PoolNotFound) && Values() == old(Values())
              else AppliedAt(old(Values()), Values(), key, r, WithdrawStep(old(Values())[key], lpTokens))
    {
      var key := PoolKey(tokenA, tokenB);
      if key !in pools {
        return Err(PoolNotFound);
      }
      var pool := pools[key];
      r := pool.RemoveLiquidity(lpTokens);
      OthersUnchanged(key);
    }

    /** `swap`: `swap_a_to_b` when `tokenFrom` sorts before `tokenTo`, else
        `swap_b_to_a`, on the pair's pool. */
    method Swap(tokenFrom: string, tokenTo: string, amount: real) returns (r: Result<real>)
      requires Valid()
      modifies PoolsAt(PoolKey(tokenFrom, tokenTo))
      ensures Valid()
      ensures var key := PoolKey(tokenFrom, tokenTo);
              if key !in pools then r == Err(PoolNotFound) && Values() == old(Values())
              else AppliedAt(old(Values()), Values(), key, r, SwapStep(old(Values())[key], tokenFrom, tokenTo, amount))
    {
      var key := PoolKey(tokenFrom, tokenTo);
      if key !in pools {
        return Err(PoolNotFound);
      }
      var pool := pools[key];
      if Less(tokenFrom, tokenTo) {
        r := pool.SwapAToB(amount);
      } else {
        r := pool.SwapBToA(amount);
      }
      OthersUnchanged(key);
    }

    /** Only the pool under `key` can have moved, so every other pool keeps
        its value. */
    twostate lemma OthersUnchanged(key: string)
      requires Valid() && key in pools
      requires pools == old(pools)
      requires forall k :: k in pools && k != key ==> unchanged(pools[k])
      ensures Values() == old(Values())[key := Values()[key]]
    {
    }

    /** `get_exchange_rate` on the pair's pool. */
    function GetExchangeRate(tokenA: string, tokenB: string): (r: Result<real>)
      reads this, pools.Values
      ensures var key := PoolKey(tokenA, tokenB);
              && (key !in pools ==> r == Err(PoolNotFound))
              && (key in pools ==> r == pools[key].GetExchangeRate())
    {
      var pool := GetPool(tokenA, tokenB);
      if pool.Err? then Err(pool.error) else pool.value.GetExchangeRate()
    }

    /** `get_pool_state` on the pair's pool. */
    function GetPoolState(tokenA: string, tokenB: string): (r: Result<PoolState>)
      reads this, pools.Values
      ensures var key := PoolKey(tokenA, tokenB);
              && (key !in pools ==> r == Err(PoolNotFound))
              && (key in pools ==> r == Ok(StateOf(Values()[key])))
    {
      var pool := GetPool(tokenA, tokenB);
      if pool.Err? then Err(pool.error) else Ok(pool.value.GetPoolState())
    }

    /** `calculate_impermanent_loss` through the registry: the pool must exist,
        but its state plays no part. `root` is `math.sqrt(priceRatioChange)`. */
    function CalculateImpermanentLoss(tokenA: string, tokenB: string, priceRatioChange: real, root: real): (r: Result<real>)
      requires 0.0 <= priceRatioChange ==> IsSqrt(priceRatioChange, root)
      reads this
      ensures PoolKey(tokenA, tokenB) !in pools ==> r == Err(PoolNotFound)
      ensures PoolKey(tokenA, tokenB) in pools ==> r == LiquidityPool.CalculateImpermanentLoss(priceRatioChange, root)
    {
      var pool := GetPool(tokenA, tokenB);
      if pool.Err? then Err(pool.error) else LiquidityPool.CalculateImpermanentLoss(priceRatioChange, root)
    }

    /** The aggregate loop, over `order` and the given per-pool amounts. */
    method Tally(amounts: map<string, (real, real)>) returns (r: Result<map<string, real>>)
      requires Valid() && forall key :: key in pools ==> key in amounts
      ensures r == Accumulate(order, amounts, map[])
    {
      var totals: map<string, real> := map[];
      var i := 0;
      while i < |order|
        invariant 0 <= i <= |order|
        invariant Accumulate(order, amounts, map[]) == Accumulate(order[i..], amounts, totals)
      {
        var key := order[i];
        assert order[i..][0] == key && order[i..][1..] == order[i + 1..];
        var parts := Split(key, '-');
        if |parts| != 2 {
          return Err(MalformedPoolKey);
        }
        var (a, b) := amounts[key];
        totals := AddTo(totals, parts[0], a);
        totals := AddTo(totals, parts[1], b);
        i := i + 1;
      }
      return Ok(totals);
    }

    /** `get_total_value_locked`: per symbol, the reserves on that symbol's
        side of each key, summed over the pools. Nothing changes. */
    method GetTotalValueLocked() returns (r: Result<map<string, real>>)
      requires Valid()
      ensures r == Accumulate(order, Reserves(Values()), map[])
    {
      var vs := Values();
      assert Reserves(vs).Keys == vs.Keys == pools.Keys;
      r := Tally(Reserves(vs));
      assert Values() == vs;
    }

    /** `calculate_fees_earned`: per symbol, the fees on that symbol's side of
        each key, summed over the pools. Nothing changes. */
    method CalculateFeesEarned() returns (r: Result<map<string, real>>)
      requires Valid()
      ensures r == Accumulate(order, Fees(Values()), map[])
    {
      var vs := Values();
      assert Fees(vs).Keys == vs.Keys == pools.Keys;
      r := Tally(Fees(vs));
      assert Values() == vs;
    }

    /** `calculate_rebalancing_incentive` on the pair's pool. */
    function CalculateRebalancingIncentive(tokenA: string, tokenB: string, amountA: real, amountB: real): (r: Result<real>)
      reads this, pools.Values
      ensures var key := PoolKey(tokenA, tokenB);
              && (key !in pools ==> r == Err(PoolNotFound))
              && (key in pools ==> r == RebalancingIncentive(Values()[key].reserveA, Values()[key].reserveB, amountA, amountB))
    {
      var pool := GetPool(tokenA, tokenB);
      if pool.Err? then Err(pool.error)
      else RebalancingIncentive(pool.value.tokenAReserve, pool.value.tokenBReserve, amountA, amountB)
    }

    /** `add_liquidity_with_incentive`. */
    method AddLiquidityWithIncentive(tokenA: string, tokenB: string, amountA: real, amountB: real) returns (r: Result<real>)
      requires Valid()
      modifies PoolsAt(PoolKey(tokenA, tokenB))
      ensures Valid()
      ensures var key := PoolKey(tokenA, tokenB);
              if key !in pools then r == Err(PoolNotFound) && Values() == old(Values())
              else AppliedAt(old(Values()), Values(), key, r, DepositWithIncentiveStep(old(Values())[key], amountA, amountB))
    {
      ghost var key := PoolKey(tokenA, tokenB);
      ghost var before := Values();
      var incentive := CalculateRebalancingIncentive(tokenA, tokenB, amountA, amountB);
      if incentive.Err? {
        return Err(incentive.error);
      }
      var minted := AddLiquidity(tokenA, tokenB, amountA, amountB);
      if minted.Err? {
        r := Err(minted.error);
      } else {
        r := Ok(Grow(minted.value, incentive.value));
      }
      BoostedAt(before, Values(), key, incentive.value, DepositStep(before[key], amountA, amountB, DefaultTolerance), minted, r);
    }

    /** `calculate_recent_volume` at clock reading `now` with random trade size
        `sample` (drawn from [1000, 100000]). The pair's pool need not exist. */
    method CalculateRecentVolume(tokenA: string, tokenB: string, window: real, now: real, sample: real) returns (r: Result<real>)
      requires Valid()
      requires 1000.0 <= sample <= 100000.0
      modifies this
      ensures Valid()
      ensures pools == old(pools) && order == old(order)
      ensures var key := PoolKey(tokenA, tokenB);
              var (after, result) := VolumeStep(Prior(old(lastTradeTime), old(lastTradeVolume), key), now, window, sample);
              && r == result
              && lastTradeTime == old(lastTradeTime)[key := after.time]
              && lastTradeVolume == old(lastTradeVolume)[key := after.volume]
    {
      var key := PoolKey(tokenA, tokenB);
      lastTradeTime, lastTradeVolume, r := RecordTrade(lastTradeTime, lastTradeVolume, key, window, now, sample);
    }

    /** `adjust_fee`: the pool must exist; the volume over the last hour is
        computed (recording the trade even if that computation fails), and on
        success the pool's fee, and nothing else, is replaced by the adjusted
        fee. */
    method AdjustFee(tokenA: string, tokenB: string, now: real, sample: real) returns (r: Result<()>)
      requires Valid()
      requires 1000.0 <= sample <= 100000.0
      modifies this, PoolsAt(PoolKey(tokenA, tokenB))
      ensures Valid()
      ensures pools == old(pools) && order == old(order)
      ensures var key := PoolKey(tokenA, tokenB);
              if key !in pools then
                r == Err(PoolNotFound) && Values() == old(Values())
                && lastTradeTime == old(lastTradeTime) && lastTradeVolume == old(lastTradeVolume)
              else
                var (after, volume) := VolumeStep(Prior(old(lastTradeTime), old(lastTradeVolume), key), now, FeeVolumeWindow, sample);
                && lastTradeTime == old(lastTradeTime)[key := after.time]
                && lastTradeVolume == old(lastTradeVolume)[key := after.volume]
                && AppliedAt(old(Values()), Values(), key, r, FeeStep(old(Values())[key], volume))
    {
      var key := PoolKey(tokenA, tokenB);
      if key !in pools {
        return Err(PoolNotFound);
      }
      ghost var before := Values();
      var pool := pools[key];
      var volume := CalculateRecentVolume(tokenA, tokenB, FeeVolumeWindow, now, sample);
      if volume.Err? {
        return Err(volume.error);
      }
      var volumeFactor := PyMin(volume.value / Config.VolumeThreshold, 1.0);
      if pool.tokenBReserve == 0.0 {
        return Err(ZeroDivision);
      }
      var imbalance := Abs(pool.tokenAReserve / pool.tokenBReserve - 1.0);
      var imbalanceFactor := PyMin(imbalance / Config.MaxImbalance, 1.0);
      var newFee := Grow(Grow(pool.fee, volumeFactor), imbalanceFactor);
      newFee := PyMin(newFee, Config.MaxFee);
      FeeStepIs(before[key], volume.value, volumeFactor, imbalanceFactor, newFee);
      pool.fee := newFee;
      OthersUnchanged(key);
      return Ok(());
    }
  }

  // ---------------------------------------------------------------------------
  // Scenarios from the unit tests. `root` is `math.sqrt(1000)`.

  /** The "USDC"/"ETH" pool is filed under "ETH-USDC" with the amounts in
      argument order, so USDC's 1000 sits on side A; a second creation is
      refused and an unknown pair has no pool. */
  method ScenarioCreatePool(root: real) returns (key: string, reserves: (real, real), again: Result<()>, missing: Result<LiquidityPool>)
    requires IsSqrt(1000.0, root)
    ensures key == "ETH-USDC" && reserves == (1000.0, 1.0)
    ensures again == Err(PoolExists) && missing == Err(PoolNotFound)
  {
    var amm := new AMM();
    var _ := amm.CreatePool("USDC", "ETH", 1000.0, 1.0, root);
    key := PoolKey("USDC", "ETH");
    assert Less("ETH", "USDC");
    reserves := (amm.pools[key].tokenAReserve, amm.pools[key].tokenBReserve);
    again := amm.CreatePool("USDC", "ETH", 1000.0, 1.0, root);
    missing := amm.GetPool("BTC", "LTC");
  }

  /** "USDC" and "ETH" in either order make the key "ETH-USDC". */
  lemma EthUsdcKey()
    ensures Less("ETH", "USDC") && !Less("USDC", "ETH")
    ensures PoolKey("USDC", "ETH") == "ETH-USDC"
  {
    LessAsymmetric("ETH", "USDC");
  }

  /** The key "ETH-USDC" splits back into "ETH" and "USDC". */
  lemma EthUsdcSplit()
    ensures Split("ETH-USDC", '-') == ["ETH", "USDC"]
  {
    EthUsdcKey();
    SplitPoolKey("USDC", "ETH");
  }

  /** A fold over one key that splits into two different symbols reports
      exactly that pool's two amounts. */
  lemma AccumulateOne(key: string, amounts: map<string, (real, real)>, x: string, y: string)
    requires key in amounts && Split(key, '-') == [x, y] && x != y
    ensures var r := Accumulate([key], amounts, map[]);
            && r.Ok? && r.value.Keys == {x, y}
            && Get(r.value, x) == amounts[key].0 && Get(r.value, y) == amounts[key].1
  {
    var (a, b) := amounts[key];
    assert [key][1..] == [];
    assert AddTo(AddTo(map[], x, a), y, b) == map[x := a, y := b];
  }

  /** The registry the remaining scenarios start from: the "USDC"/"ETH" pool
      created with 1000 USDC and 1 ETH, filed under "ETH-USDC". */
  method UsdcEthRegistry(root: real) returns (amm: AMM)
    requires IsSqrt(1000.0, root)
    ensures fresh(amm) && amm.Valid() && amm.order == ["ETH-USDC"]
    ensures "ETH-USDC" in amm.pools && fresh(amm.pools["ETH-USDC"])
    ensures amm.Values() == map["ETH-USDC" := Initial(1000.0, 1.0, DefaultFee, root)]
  {
    amm := new AMM();
    assert IsSqrt(1000.0 * 1.0, root);
    EthUsdcKey();
    var _ := amm.CreatePool("USDC", "ETH", 1000.0, 1.0, root);
  }

  /** On the fixture's pool, 100 of side B buys 1000 - 1000/100.7 of side A
      and leaves a fee of 0.3 on side B. */
  lemma SwapExample(root: real)
    requires IsSqrt(1000.0, root)
    ensures var s := SwapBToAStep(Initial(1000.0, 1.0, DefaultFee, root), 100.0);
            && s.Ok? && 990.0694 <= s.value.1 <= 990.0696
            && s.value.0.feesA == 0.0 && s.value.0.feesB == 0.3
  {
    var q := 1000.0 / 100.7;
    assert q * 100.7 == 1000.0;
    if q < 9.9304 {
      MulStrict(100.7, q, 9.9304);
    }
    if 9.9306 < q {
      MulStrict(100.7, 9.9306, q);
    }
  }

  /** On the fixture's pool, depositing (100, 0.1) mints a tenth of the root,
      and redeeming 5 of the new supply pays 5000/root and 5/root. */
  lemma LiquidityExample(root: real)
    requires IsSqrt(1000.0, root)
    ensures var d := DepositStep(Initial(1000.0, 1.0, DefaultFee, root), 100.0, 0.1, DefaultTolerance);
            && d.Ok? && 3.161 <= d.value.1 <= 3.163
            && var w := WithdrawStep(d.value.0, 5.0);
               && w.Ok? && 158.112 <= w.value.1.0 <= 158.114 && 0.1580 <= w.value.1.1 <= 0.1582
  {
    SqrtBetween(1000.0, root, 31.62277, 31.62278);
    var p := Initial(1000.0, 1.0, DefaultFee, root);
    assert 0.1 / 100.0 == 1.0 / 1000.0;
    var d := DepositStep(p, 100.0, 0.1, DefaultTolerance);
    assert d.value.1 == 0.1 * root;
    var q := d.value.0;
    assert q.lpSupply == 1.1 * root && q.reserveA == 1100.0 && q.reserveB == 1.1;
    var share := 5.0 / (1.1 * root);
    assert share * (1.1 * root) == 5.0;
    ShareBounds(root, share);
  }

  /** `5 / (1.1 * root)` for a root in [31.62277, 31.62278] pays between
      158.112 and 158.114 out of 1100 and between 0.1580 and 0.1582 out of 1.1. */
  lemma ShareBounds(root: real, share: real)
    requires 31.62277 <= root <= 31.62278 && share * (1.1 * root) == 5.0
    ensures 158.112 <= share * 1100.0 <= 158.114 && 0.1580 <= share * 1.1 <= 0.1582
  {
    var x := share * 1.1;
    assert x * root == 5.0;
    assert 0.0 < x;
    MulMono(x, 31.62277, root);
    MulMono(x, root, 31.62278);
  }

  /** The pool quotes 0.001 (side B per side A: 1 ETH against 1000 USDC). */
  method ScenarioExchangeRate(root: real) returns (rate: Result<real>)
    requires IsSqrt(1000.0, root)
    ensures rate == Ok(0.001)
  {
    var amm := UsdcEthRegistry(root);
    EthUsdcKey();
    var pool := amm.pools["ETH-USDC"];
    assert pool.Value() == amm.Values()["ETH-USDC"];
    assert pool.tokenAReserve == 1000.0 && pool.tokenBReserve == 1.0;
    rate := amm.GetExchangeRate("USDC", "ETH");
  }

  /** Swapping 100 "USDC" for "ETH" runs `swap_b_to_a`, because "USDC" sorts
      after "ETH", and pays out about 990.0695 of side A (1000 - 1000/100.7). */
  method ScenarioSwap(root: real) returns (received: Result<real>)
    requires IsSqrt(1000.0, root)
    ensures received.Ok? && 990.0694 <= received.value <= 990.0696
  {
    var amm := UsdcEthRegistry(root);
    EthUsdcKey();
    SwapExample(root);
    received := amm.Swap("USDC", "ETH", 100.0);
  }

  /** After that swap the fee of 0.3 is reported under "USDC", the symbol on
      the side that received the input, and nothing under "ETH". */
  method ScenarioFeesEarned(root: real) returns (fees: Result<map<string, real>>)
    requires IsSqrt(1000.0, root)
    ensures fees.Ok? && Get(fees.value, "USDC") == 0.3 && Get(fees.value, "ETH") == 0.0
  {
    var amm := UsdcEthRegistry(root);
    EthUsdcKey();
    SwapExample(root);
    ghost var after := SwapBToAStep(Initial(1000.0, 1.0, DefaultFee, root), 100.0).value.0;
    var _ := amm.Swap("USDC", "ETH", 100.0);
    assert amm.Values()["ETH-USDC"] == after;
    fees := amm.CalculateFeesEarned();
    EthUsdcSplit();
    AccumulateOne("ETH-USDC", Fees(amm.Values()), "ETH", "USDC");
  }

  /** The total value locked reports USDC's 1000 under "ETH" and ETH's 1
      under "USDC": the reserves follow argument order, the keys canonical
      order. */
  method ScenarioTotalValueLocked(root: real) returns (tvl: Result<map<string, real>>)
    requires IsSqrt(1000.0, root)
    ensures tvl.Ok? && tvl.value.Keys == {"ETH", "USDC"}
    ensures Get(tvl.value, "ETH") == 1000.0 && Get(tvl.value, "USDC") == 1.0
  {
    var amm := UsdcEthRegistry(root);
    EthUsdcKey();
    tvl := amm.GetTotalValueLocked();
    EthUsdcSplit();
    AccumulateOne("ETH-USDC", Reserves(amm.Values()), "ETH", "USDC");
  }

  /** Depositing (100, 0.1) mints about 3.162 LP tokens; redeeming 5 of them
      then pays about 158.113 and 0.1581. */
  method ScenarioLiquidity(root: real) returns (minted: Result<real>, paid: Result<(real, real)>)
    requires IsSqrt(1000.0, root)
    ensures minted.Ok? && 3.161 <= minted.value <= 3.163
    ensures paid.Ok? && 158.112 <= paid.value.0 <= 158.114 && 0.1580 <= paid.value.1 <= 0.1582
  {
    var amm := UsdcEthRegistry(root);
    EthUsdcKey();
    LiquidityExample(root);
    minted := amm.AddLiquidity("USDC", "ETH", 100.0, 0.1);
    paid := amm.RemoveLiquidity("USDC", "ETH", 5.0);
  }

  /** A balanced deposit into a balanced pool earns nothing; (1000, 500) into
      the (1000, 2000) pool brings the ratio from 0.5 to 0.8 and earns 60% of
      the largest bonus. Reported with a 1% incentive, 100 minted LP tokens
      become 101. */
  lemma IncentiveExamples()
    ensures RebalancingIncentive(1000.0, 1000.0, 100.0, 100.0) == Ok(0.0)
    ensures RebalancingIncentive(1000.0, 2000.0, 1000.0, 500.0) == Ok(0.6 * Config.BalanceMaxIncentive)
    ensures Boosted(Ok(0.01), Ok((Initial(0.0, 0.0, DefaultFee, 0.0), 100.0))).value.1 == 101.0
  {
  }
}
