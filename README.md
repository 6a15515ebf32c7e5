# py-defi-amm: a verified model of the pool engine

This project models the accounting core of `defi_amm`, a constant-product
automated market maker. It has three parts.

- **`LiquidityPool`** is one two-token pool. It holds reserves, the stored
  invariant `k`, a swap fee, the fees collected on each side and the
  LP-token supply.
- **`AMM`** is a registry of pools filed under the canonical key `min-max` of
  the two token symbols. It delegates liquidity and swap calls to the pool,
  aggregates reserves and fees per token, and computes a rebalancing bonus
  and a volume- and imbalance-driven fee.
- **`RiskManagement`** holds analytics over a pool's reported state: LP
  returns, Monte-Carlo value at risk, a stop-loss trigger and position
  sizing.

The Dafny modules follow the source files:

| module | file | models |
|---|---|---|
| `Numeric`, `Config` | `numeric.dfy` | error kinds, `Result`, Python's `abs`/`min`, `math.isclose`, the `math.sqrt` relation; the four `defi_amm.config` constants |
| `Symbols` | `symbols.dfy` | Python's `<` on `str`, `_get_pool_key`, `str.split` |
| `LiquidityPools` | `liquidity_pool.dfy` | `LiquidityPool` |
| `Registry` | `amm.dfy` | `AMM` |
| `Risk` | `risk_management.dfy` | `RiskManagement` |

The model is built as follows.

- **Floats and errors.** Python floats are Dafny `real`s. Every exception
  the code can raise is an `Err` of `Result`. This covers the classes'
  own exceptions and also Python's `ZeroDivisionError` at each `/`. It
  covers `ValueError` from `math.sqrt`, from `math.isclose` and from
  unpacking `key.split('-')`.
- **Square roots.** A square root is an input `root` constrained by
  `IsSqrt(x, root)`.
- **Pool state.** `LiquidityPool` is a class with the source's seven fields.
  Each state-changing method is specified by a step function on `Pool`, the
  value of all seven fields. On success the method installs the step's new
  value and returns its result; on failure nothing changes. The properties
  are lemmas about the step functions.
- **Registry state.** `AMM` keeps `pools` as a map to pool objects and `order`
  as the dictionary's insertion order. The two per-pool trade records are
  maps. Every method states where it leaves the values of all pools.

Several quirks of the source are stated and proved as lemmas rather than
corrected.

- `create_pool` stores the amounts in argument order, while `swap`, the
  total value locked and the fees use the key's canonical order. This is
  stated in `ScenarioCreatePool`, `ScenarioSwap`, `ScenarioTotalValueLocked`
  and `ScenarioFeesEarned`.
- The rebalancing bonus is reported but never minted (`IncentiveNotMinted`).
- A pool's first volume computation divides by zero (`VolumeStepFacts`).
- Swaps price off the stored `k`, which they do not refresh. So after a
  fee-paying swap a swap of nothing pays out the retained fee
  (`ZeroSwapPaysOutRetainedFee`).
- The impermanent-loss formula as written is antisymmetric under inverting
  the price ratio, and it is positive for a rising ratio
  (`ImpermanentLossAntisymmetric`, `ImpermanentLossSign`).

## Model

| member | source | states |
|---|---|---|
| Numeric.IsCloseRelative | src/defi_amm/models/liquidity_pool.py:84 | `math.isclose` with a non-negative tolerance holds exactly when the difference is within the tolerance times the magnitude of one of the two operands |
| Numeric.PyMin | src/defi_amm/models/amm.py:366-380 | Python's `min` of two numbers is at most each of them and is one of them |
| Symbols.LessIrreflexive | src/defi_amm/models/amm.py:186-187 | no symbol sorts before itself under Python's string order |
| Symbols.LessAsymmetric | src/defi_amm/models/amm.py:186-187 | two symbols never sort before each other |
| Symbols.LessTotal | src/defi_amm/models/amm.py:257 | two different symbols are always ordered one way or the other |
| Symbols.LessTransitive | src/defi_amm/models/amm.py:257 | the string order is transitive |
| Symbols.PoolKeyCanonical | src/defi_amm/models/amm.py:246-257 | the pool key does not depend on argument order and puts the symbol that sorts first on the left |
| Symbols.Split | src/defi_amm/models/amm.py:268 | `str.split` always returns at least one part |
| Symbols.SplitLength | src/defi_amm/models/amm.py:268 | `split` yields one part more than there are separators |
| Symbols.SplitPoolKey | src/defi_amm/models/amm.py:257-268 | the key of two dash-free symbols splits back into the two symbols in canonical order |
| Symbols.SplitPoolKeyMalformed | src/defi_amm/models/amm.py:268 | a symbol containing a dash makes the key split into more than two parts, so the unpacking fails |
| Symbols.PoolKeyIdentifiesPair | src/defi_amm/models/amm.py:246-257 | for dash-free symbols, two pairs share a key exactly when they are the same unordered pair |
| LiquidityPools.LiquidityPool.constructor | src/defi_amm/models/liquidity_pool.py:48-66 | the fields are the initial pool: reserves as given, `k` their product, the given fee, no fees collected, supply `sqrt(a*b)`; no check on the reserves |
| LiquidityPools.InitialHealthy | src/defi_amm/models/liquidity_pool.py:60-66 | a pool created over positive reserves with a fee in [0, 1) is healthy, `k` is the product of the reserves, the fee totals are 0 and the supply squared is `k` |
| LiquidityPools.StateOfForgetsFee | src/defi_amm/models/liquidity_pool.py:183-197 | `get_pool_state` reports every field but the fee: two pools report the same state exactly when they differ at most in the fee |
| LiquidityPools.LiquidityPool.AddLiquidity | src/defi_amm/models/liquidity_pool.py:68-95 | success installs the deposit step's pool and returns its minted amount; any failure leaves every field unchanged |
| LiquidityPools.DepositAccepted | src/defi_amm/models/liquidity_pool.py:82-95 | a deposit is accepted exactly when neither division by zero occurs, the tolerance is non-negative and the two ratios are relatively close; the accepted effect is `Deposited` |
| LiquidityPools.DepositRejectsImbalance | src/defi_amm/models/liquidity_pool.py:82-86 | with a non-negative tolerance a deposit is refused as imbalanced exactly when its B/A ratio is not within the tolerance of the pool's ratio |
| LiquidityPools.DepositMintsProRata | src/defi_amm/models/liquidity_pool.py:88-95 | an accepted deposit adds both amounts to the reserves, sets `k` to their product, grows the supply by the minted amount, and keeps the fee and fee totals; minted/supply = amountA/reserveA, both before and after |
| LiquidityPools.MintedShare | src/defi_amm/models/liquidity_pool.py:88 | the minted amount is to the old supply as the A deposit is to the old A reserve, and is the same fraction of the new supply as the deposit is of the new reserve |
| LiquidityPools.DepositKeepsHealthy | src/defi_amm/models/liquidity_pool.py:88-95 | a positive deposit into a healthy pool leaves it healthy with `k` equal to the product of the reserves |
| LiquidityPools.LiquidityPool.RemoveLiquidity | src/defi_amm/models/liquidity_pool.py:97-122 | success installs the withdrawal step's pool and returns its payout; any failure leaves every field unchanged |
| LiquidityPools.WithdrawPaysShare | src/defi_amm/models/liquidity_pool.py:110-122 | with a non-zero supply, redeeming more than the supply, and only that, is refused with the LP-token error; otherwise each side pays its pro-rata share in the pool's ratio, what is paid leaves the reserves, the supply drops by the redeemed amount and `k` is refreshed |
| LiquidityPools.WithdrawAllDrains | src/defi_amm/models/liquidity_pool.py:110-122 | redeeming the whole supply is accepted, pays both reserves and leaves reserves, supply and `k` at 0 |
| LiquidityPools.WithdrawKeepsHealthy | src/defi_amm/models/liquidity_pool.py:113-122 | redeeming a non-negative amount below the supply keeps a healthy pool healthy with `k` equal to the product of the reserves |
| LiquidityPools.RedeemMintedShare | src/defi_amm/models/liquidity_pool.py:88-119 | redeeming freshly minted tokens pays back the A deposit exactly and, for a deposit in the exact ratio, the B deposit and the old product of the reserves |
| LiquidityPools.RedeemMinted | src/defi_amm/models/liquidity_pool.py:110-122 | redeeming the tokens minted for a deposit restores reserve A and the supply and pays out the A amount; for an exact-ratio deposit it also restores reserve B and `k` |
| LiquidityPools.DepositWithdrawRoundTrip | src/defi_amm/models/liquidity_pool.py:88-122 | depositing (x, y) and redeeming the minted tokens returns exactly x, returns (rb+y)·x/(ra+x) of B, and restores reserve A and the supply; for an exact-ratio deposit it returns y and restores reserve B and `k` |
| LiquidityPools.LiquidityPool.SwapAToB | src/defi_amm/models/liquidity_pool.py:124-147 | success installs the A-to-B swap step's pool and returns its output; a refused trade changes nothing |
| LiquidityPools.LiquidityPool.SwapBToA | src/defi_amm/models/liquidity_pool.py:149-172 | success installs the B-to-A swap step's pool and returns its output; a refused trade changes nothing |
| LiquidityPools.SwapMirror | src/defi_amm/models/liquidity_pool.py:137-172 | `swap_b_to_a` is `swap_a_to_b` on the pool with its sides exchanged |
| LiquidityPools.SwapAToBAccepts | src/defi_amm/models/liquidity_pool.py:137-141 | on a healthy pool a positive input always trades, and a zero input trades exactly when `k` is below the product of the reserves |
| LiquidityPools.SwapAToBKeepsReserves | src/defi_amm/models/liquidity_pool.py:137-147 | with a fee in [0, 1), a positive `k` and a positive reserve A, an accepted swap of a non-negative amount leaves both reserves positive, `k` unchanged and at most the new product, and side A's fee total no smaller; nothing is assumed of side B, the fee totals or the supply |
| LiquidityPools.SwapBToAKeepsReserves | src/defi_amm/models/liquidity_pool.py:162-172 | the same for `swap_b_to_a`, with the sides exchanged |
| LiquidityPools.NegativeSwapExample | src/defi_amm/models/liquidity_pool.py:137-147 | the amount's sign is not checked: swapping -1 into a healthy (1000, 1000) pool with `k` 900000 is accepted, pays out a positive amount and leaves side A's fee total at -0.003 |
| LiquidityPools.SwapAToBKeepsHealthy | src/defi_amm/models/liquidity_pool.py:137-147 | a successful swap of a non-negative amount keeps a healthy pool healthy: the full input is credited, the output debited, the fee added to side A's total, and `k`, the fee, side B's total and the supply unchanged, with `k` at most the new product |
| LiquidityPools.SwapBToAKeepsHealthy | src/defi_amm/models/liquidity_pool.py:162-172 | the same for `swap_b_to_a`, with the sides exchanged |
| LiquidityPools.ZeroSwapPaysOutRetainedFee | src/defi_amm/models/liquidity_pool.py:137-147 | after a fee-paying swap on a pool whose `k` equals the product, a swap of 0 is accepted and pays out a positive amount |
| LiquidityPools.LiquidityPool.GetExchangeRate | src/defi_amm/models/liquidity_pool.py:174-181 | the rate exists exactly when reserve A is non-zero, and rate times reserve A is reserve B |
| LiquidityPools.LiquidityPool.CalculateImpermanentLoss | src/defi_amm/models/liquidity_pool.py:202-218 | a negative ratio fails in `math.sqrt`; otherwise the value v lies in [-1, 1) and v·(s+1) = s−1 for s = sqrt(r) |
| LiquidityPools.ImpermanentLossNoChange | src/defi_amm/models/liquidity_pool.py:216-218 | no price change means no loss |
| LiquidityPools.ImpermanentLossAntisymmetric | src/defi_amm/models/liquidity_pool.py:216-218 | the value at 1/r is minus the value at r |
| LiquidityPools.ImpermanentLossSign | src/defi_amm/models/liquidity_pool.py:216-218 | the value is 0 exactly at r = 1 and positive exactly for r > 1 |
| LiquidityPools.ImpermanentLossAtOneAndAHalf | tests/unit/test_liquidity_pool.py:34-36 | at a ratio of 1.5 the value is within 0.0001 of 0.101 |
| LiquidityPools.ScenarioAddLiquidity | tests/unit/test_liquidity_pool.py:10-14 | on the (1000, 1000) pool, a (100, 100) deposit mints exactly 100 and leaves reserves of 1100 each |
| LiquidityPools.ScenarioRemoveLiquidity | tests/unit/test_liquidity_pool.py:16-20 | redeeming 50 after that deposit pays exactly (50, 50) |
| LiquidityPools.ScenarioSwaps | tests/unit/test_liquidity_pool.py:22-28 | a swap of 100 either way on the (1000, 1000) pool pays within 0.001 of 90.661 |
| LiquidityPools.ScenarioExchangeRate | tests/unit/test_liquidity_pool.py:30-32 | the balanced pool quotes exactly 1 |
| LiquidityPools.ScenarioRejections | tests/unit/test_liquidity_pool.py:38-44 | a (100, 200) deposit is refused as imbalanced and redeeming 2000 is refused, and neither changes the pool |
| Registry.SwapCreditsFromSide | src/defi_amm/models/amm.py:186-190 | the swap direction chosen by comparing symbols always credits the input, and the fee on it, to the side of the key that names `token_from`, and pays the output from the other side |
| Registry.AddTo | src/defi_amm/models/amm.py:269-270 | `d[t] = d.get(t, 0) + x` adds `t` to the keys, adds x at `t` and changes nothing else |
| Registry.AccumulateFails | src/defi_amm/models/amm.py:267-268 | the aggregate loop fails, with the unpacking error, exactly when some key does not split into two symbols |
| Registry.AccumulatePerToken | src/defi_amm/models/amm.py:267-272 | per symbol, the loop's result is the sum over pools of the amount on that symbol's side of the key, and it reports exactly the symbols that occur in some key |
| Registry.AccumulateTotal | src/defi_amm/models/amm.py:267-287 | the per-symbol totals add up to both sides of every pool, summed |
| Registry.IncentiveBounds | src/defi_amm/models/amm.py:311-327 | the incentive lies in [0, BALANCE_MAX_INCENTIVE], is positive exactly when the ratio's distance from 1 strictly decreases, and is then the reduction's fraction of the old distance times the cap |
| Registry.BoostedAt | src/defi_amm/models/amm.py:339-341 | scaling the deposit's minted amount by one plus the incentive gives the registry-level outcome of the boosted step |
| Registry.IncentiveNotMinted | src/defi_amm/models/amm.py:339-341 | the pool ends exactly as after a plain deposit, its supply grows by the un-boosted amount only, and the reported amount is that growth times one plus the incentive |
| Registry.VolumeStepFacts | src/defi_amm/models/amm.py:64-94 | the record stores the call's time and the previous total (0 when new or lapsed) plus the sample; a pool's first call divides by zero; within the window the answer scales the total up to the window; after it, the answer is the total |
| Registry.RecordTrade | src/defi_amm/models/amm.py:67-85 | the dictionary updates leave the records of the volume step at the key and keep every other record, and return the step's answer |
| Registry.AdjustedFeeBounds | src/defi_amm/models/amm.py:367-379 | the adjusted fee never exceeds MAX_FEE, is at least the old fee when that is within the cap and the volume is non-negative, is at most four times the old fee, and is the capped old fee on a balanced pool with no volume |
| Registry.FeeStepIs | src/defi_amm/models/amm.py:364-381 | the fee computed factor by factor is the one the fee step sets, and only the fee changes |
| Registry.FeeStepOnlyFee | src/defi_amm/models/amm.py:364-381 | a successful fee adjustment changes no field but the fee, leaves it within the cap and, for a non-negative recorded volume, does not lower a fee within the cap |
| Registry.AMM.constructor | src/defi_amm/models/amm.py:43-50 | the registry starts with no pools and no trade records |
| Registry.AMM.CreatePool | src/defi_amm/models/amm.py:96-112 | a taken key is refused and a negative product fails in `math.sqrt`, both without change; otherwise exactly that key is added, after all others, mapped to a fresh pool over the amounts in argument order with the default fee |
| Registry.AMM.GetPool | src/defi_amm/models/amm.py:114-132 | the result is the pool under the canonical key when there is one, and the not-found error otherwise |
| Registry.AMM.GetPoolSymmetric | src/defi_amm/models/amm.py:114-132 | the pair may be named in either order |
| Registry.AMM.AddLiquidity | src/defi_amm/models/amm.py:134-151 | a missing pool fails without change; otherwise the pair's pool moves as the deposit step with the default tolerance says and every other pool keeps its value |
| Registry.AMM.RemoveLiquidity | src/defi_amm/models/amm.py:153-169 | a missing pool fails without change; otherwise the pair's pool moves as the withdrawal step says and every other pool keeps its value |
| Registry.AMM.Swap | src/defi_amm/models/amm.py:171-190 | a missing pool fails without change; otherwise the pair's pool swaps A to B exactly when `token_from` sorts before `token_to`, and every other pool keeps its value |
| Registry.AMM.OthersUnchanged | src/defi_amm/models/amm.py:150-151 | when only the pool under a key may have moved, every other pool keeps its value |
| Registry.AMM.GetExchangeRate | src/defi_amm/models/amm.py:192-207 | the pair's pool's rate, or the not-found error |
| Registry.AMM.GetPoolState | src/defi_amm/models/amm.py:209-224 | the pair's pool's reported state, or the not-found error |
| Registry.AMM.CalculateImpermanentLoss | src/defi_amm/models/amm.py:226-243 | the pool must exist, and then the value is the pool formula's, whatever the pool's state |
| Registry.AMM.Tally | src/defi_amm/models/amm.py:267-272 | the loop over the pools in insertion order computes the aggregate fold and changes nothing |
| Registry.AMM.GetTotalValueLocked | src/defi_amm/models/amm.py:259-272 | the fold of every pool's reserves in insertion order; nothing changes |
| Registry.AMM.CalculateFeesEarned | src/defi_amm/models/amm.py:274-287 | the fold of every pool's fee totals in insertion order; nothing changes |
| Registry.AMM.CalculateRebalancingIncentive | src/defi_amm/models/amm.py:289-327 | the incentive formula on the pair's pool's reserves, or the not-found error; nothing changes |
| Registry.AMM.AddLiquidityWithIncentive | src/defi_amm/models/amm.py:329-341 | a missing pool fails without change; otherwise the pool moves as a plain deposit and the result is the minted amount times one plus the incentive on the pre-deposit reserves |
| Registry.AMM.CalculateRecentVolume | src/defi_amm/models/amm.py:52-94 | the two trade records change only at the pair's key, as the volume step says, and the answer is the step's; no pool changes |
| Registry.AMM.AdjustFee | src/defi_amm/models/amm.py:343-381 | a missing pool fails without change; otherwise the trade is recorded over a 3600-second window and the pair's pool moves as the fee step says, every other pool keeping its value |
| Registry.ScenarioCreatePool | tests/unit/test_amm.py:59-65 | "USDC"/"ETH" is filed under "ETH-USDC" with USDC's 1000 on side A; a second creation is refused and "BTC"/"LTC" has no pool |
| Registry.EthUsdcKey | tests/unit/test_amm.py:9-11 | "USDC" and "ETH" make the key "ETH-USDC" |
| Registry.EthUsdcSplit | src/defi_amm/models/amm.py:268 | "ETH-USDC" splits into "ETH" and "USDC" |
| Registry.AccumulateOne | src/defi_amm/models/amm.py:267-272 | a fold over a single well-formed key reports exactly that pool's two amounts under its two symbols |
| Registry.UsdcEthRegistry | tests/unit/test_amm.py:9-11 | the fixture registry holds exactly one pool, (1000, 1) with the default fee, under "ETH-USDC" |
| Registry.SwapExample | tests/unit/test_amm.py:31-33 | on that pool 100 of side B buys within 0.0001 of 990.0695 of side A and leaves a fee of 0.3 on side B |
| Registry.LiquidityExample | tests/unit/test_amm.py:21-29 | depositing (100, 0.1) mints within 0.001 of 3.162; redeeming 5 then pays within 0.001 of 158.113 and within 0.0001 of 0.1581 |
| Registry.ScenarioExchangeRate | tests/unit/test_amm.py:35-37 | the fixture's pool quotes exactly 0.001 |
| Registry.ScenarioSwap | tests/unit/test_amm.py:31-33 | swapping 100 "USDC" for "ETH" goes B to A and pays within 0.0001 of 990.0695 |
| Registry.ScenarioFeesEarned | tests/unit/test_amm.py:53-57 | after that swap the fees report 0.3 under "USDC" and 0 under "ETH" |
| Registry.ScenarioTotalValueLocked | tests/unit/test_amm.py:48-51 | the total value locked reports exactly "ETH" and "USDC", with 1000 under "ETH" and 1 under "USDC" |
| Registry.ScenarioLiquidity | tests/unit/test_amm.py:21-29 | through the registry, the (100, 0.1) deposit and the redemption of 5 give the amounts above |
| Registry.IncentiveExamples | tests/unit/test_amm.py:82-103 | a balanced deposit into a balanced pool earns 0; (1000, 500) into (1000, 2000) earns 60% of the cap; 100 minted with a 1% incentive is reported as 101 |
| Risk.LiquidityReturnsGrowth | src/defi_amm/models/risk_management.py:35-50 | the return is the percentage growth from the invested value to the held value; it is 0 exactly when they agree and, for a positive investment, positive exactly when the held value is larger |
| Risk.Losses | src/defi_amm/models/risk_management.py:79-81 | one loss per simulated price change, each the pool's value times that change's price drop |
| Risk.Insert | src/defi_amm/models/risk_management.py:84 | inserting into a sorted sample keeps it sorted and adds exactly the one value |
| Risk.Sort | src/defi_amm/models/risk_management.py:84 | the sorted sample is ascending and a permutation of the sample |
| Risk.SortedUnique | src/defi_amm/models/risk_management.py:84 | a sample has only one ascending arrangement |
| Risk.InterpolateBetween | src/defi_amm/models/risk_management.py:84 | a percentile lies between the two order statistics it interpolates, hence between the least and the greatest loss |
| Risk.InterpolateEnds | src/defi_amm/models/risk_management.py:84 | the 0th percentile is the least loss and the 100th the greatest |
| Risk.InterpolateMonotone | src/defi_amm/models/risk_management.py:84 | a higher percentile is never smaller |
| Risk.PercentileBounds | src/defi_amm/models/risk_management.py:84 | both percentiles of a non-empty sample exist, the lower lies between the least and the greatest value, and it is at most the higher |
| Risk.ValueAtRiskBounds | src/defi_amm/models/risk_management.py:67-86 | for a confidence in [0, 1] and at least one simulation the value at risk exists, lies between the least and the greatest loss, and never falls as the confidence rises |
| Risk.StopLossTrigger | src/defi_amm/models/risk_management.py:102-116 | from a positive starting value the stop-loss fires exactly when the drop is at least the percentage; without one it fires exactly when the percentage is not positive, and an empty pool divides by zero |
| Risk.PositionSizingSplit | src/defi_amm/models/risk_management.py:130-146 | the positions are the risk factor times each reserve, they add up to the risk factor times the pool, and they stand in the pool's ratio |
| Risk.RiskManagement.constructor | src/defi_amm/models/risk_management.py:9-10 | the analytics read the given registry |
| Risk.RiskManagement.CalculateTotalFeesEarned | src/defi_amm/models/risk_management.py:12-19 | exactly the registry's fee aggregate; nothing changes |
| Risk.RiskManagement.CalculateLiquidityReturns | src/defi_amm/models/risk_management.py:21-50 | the returns formula on the pair's pool's reported state, or the not-found error |
| Risk.RiskManagement.CalculateVar | src/defi_amm/models/risk_management.py:52-86 | the value at risk on the pair's pool's reported state for the given price changes, or the not-found error |
| Risk.RiskManagement.ImplementStopLoss | src/defi_amm/models/risk_management.py:88-116 | the stop-loss test on the pair's pool's reported state, or the not-found error |
| Risk.RiskManagement.DynamicPositionSizing | src/defi_amm/models/risk_management.py:118-146 | the position sizing on the pair's pool's reported state, or the not-found error |
| Risk.LiquidityReturnsExample | tests/unit/test_risk_management.py:33-39 | investing (500, 1000) at ratio 2 in the (1000, 2000, 100) pool returns within 0.001 of 1314.213% |
| Risk.ValueAtRiskExample | tests/unit/test_risk_management.py:84-89 | the changes (-1%, -2%, -3%, 1%, 2%) on a pool worth 3000 give a value at risk of exactly 84 |
| Risk.LossesExample | tests/unit/test_risk_management.py:84-89 | those changes lose (30, 60, 90, -30, -60) |
| Risk.SortExample | tests/unit/test_risk_management.py:84-89 | those losses sort to (-60, -30, 30, 60, 90) |
| Risk.SortedLossesExample | tests/unit/test_risk_management.py:84-89 | the sorted losses of those changes are (-60, -30, 30, 60, 90) |
| Risk.MultisetExample | tests/unit/test_risk_management.py:84-89 | the losses and their sorted order hold the same values |
| Risk.StopLossAndSizingExamples | tests/unit/test_risk_management.py:41-66 | a fall from 2000 to 1500 triggers a 10% stop-loss; an unchanged pool without a starting value does not; sizing (1000, 2000) at 2% gives (20, 40) |

## Left out

- Logging in the exception constructors and the `print` in the stop-loss
  are left out. They do not affect results.
- The HTTP routes, the application start-up, the market simulator, the
  metrics plots, the manual run script and the logging setup are not part
  of this model. They are I/O and drivers around the core.
- The clock and random sources become inputs. `time.time()` and
  `random.uniform(1000, 100000)` in `calculate_recent_volume` are the
  parameters `now` and `sample`. The draws of `np.random.normal` in
  `calculate_var` are the parameter `changes`, so `num_simulations`, the
  mean and the standard deviation are not modelled.
- IEEE-754 rounding is not modelled. Arithmetic is exact over the reals,
  and the unit tests' tolerances become bounds.
- `math.sqrt` is an input `root` constrained by `IsSqrt`. Its rounding is
  not modelled.
- The values of `BALANCE_MAX_INCENTIVE`, `VOLUME_THRESHOLD`, `MAX_IMBALANCE`
  and `MAX_FEE` are not known. Each is some positive real.
- `numpy.percentile` is modelled by its default linear interpolation
  between order statistics, `lo + t·(hi − lo)`. numpy's other formula for
  `t ≥ 0.5` is equal over the reals. An empty sample is the error
  `EmptySample`. What numpy itself returns or raises for an empty array is
  not modelled.
- `calculate_var`'s `time_horizon` parameter plays no part in the code, and
  the model has none.
- The pool constructor's docstring promises an exception for invalid
  reserves, but the code makes no check. The model follows the code. A
  negative product fails only in `math.sqrt`.
- The MagicMock-based unit tests of the registry's incentive methods are
  modelled on the pure incentive and boosting functions.
- LiquidityPools.DepositMintsProRata: stated on `Deposited`, the effect of an
  accepted deposit, rather than on `DepositStep`. `DepositAccepted` says
  when a deposit is accepted and that its effect is then `Deposited`.
- LiquidityPools.DepositWithdrawRoundTrip: stated on `Deposited` for the same
  reason, and only for a positive reserve, supply and A amount. With a zero
  or negative amount the quotients it relies on do not behave as shares.
- LiquidityPools.SwapAToBAccepts: states acceptance for a healthy pool only.
  On an unhealthy pool the outcome depends on the signs of values that the
  code does not constrain.
