# Vault share/fee accounting and action verifiers, in Dafny

This project models the test-time verifiers of a yield vault ("sett") and its GMX staking strategy.
The vault holds a deposit token ("want"), issues shares, and hands want to the strategy.
The test helpers snapshot on-chain figures before and after each vault action (deposit, withdraw, earn, harvest, tend).
It then checks the observed changes against amounts it computes independently.

The model has two layers:

- **Share/fee arithmetic** (`shares_math.dfy`, over `int_math.dfy`). These are the conversions between want and shares, the withdrawal, performance and management fees, and the three-step share issuance of a harvest report. The order of that issuance is treasury performance fee, then management fee, then strategist performance fee. Every division is Python's floor division `//`, modelled by `IntMath.FloorDiv`. The arithmetic is over `int` because a harvest can report a negative gain, and the source then floors below zero.
- **Action verifiers** (`core_resolver.dfy`, `strategy_resolver.dfy`). Each verifier is a function of two `Snapshots.Snapshot` records that returns `Assertions.Outcome`. The outcome is `Pass`, or `Raised(e)` with `e` being the first Python exception the verifier would raise. Each `assert` becomes a `Check`, and an early `return` becomes `Pass`. Python's method overriding becomes the `CoreResolver.Resolver` datatype:
  - `StrategyCore` is the base class with its default hooks;
  - `GmxStrategy` is the subclass in `_setup/StrategyResolver.py`.

The snapshot record has exactly the keys the snapshot builders register. `s.balances.want.sett` is `"balances.want.sett"`, `s.sett.totalSupply` is `"sett.totalSupply"`, and `s.depositBalances.sgTracker` is `"depositBalances.sgTracker"`. Every token is read for every tracked entity (user, sett, strategy, treasury, strategist), so a missing key cannot occur.

`approx` is imported from `helpers/utils.py` (helpers/StrategyCoreResolver.py:10-12, _setup/StrategyResolver.py:3-5), which is not part of this model, and nothing here defines it. Every verifier that calls `approx` therefore takes the comparison as a parameter `approx: (real, real, int) -> bool`. Integers, Decimals and floats are all read as exact reals. The properties of the verifiers assume at most that `approx` is reflexive (`Assertions.Reflexive`). `Assertions.AbsoluteApprox`, the absolute tolerance `|a - b| <= t`, is one assumed instance. Under it, the Decimal and float comparisons reduce to integer cross-multiplication (`Assertions.AbsoluteApproxQuotient`, applied to the deposit checks in `CoreResolver.DepositSharesIntegerTest`).

Facts about the code that its docstrings and comments do not make obvious:

- The tend docstring (_setup/StrategyResolver.py:66-68) says tend should reduce the tended tokens in the strategy to zero. Lines 72-85 never check that. They compare the esGMX given up with the vester's gain, and the GMX given up with the fee tracker's gain.
- The earn docstring (helpers/StrategyCoreResolver.py:187-192) says the sett's want should decrease and the strategy's `balanceOfWant` should reach zero. Line 204 allows the sett's want to stay the same. Lines 207-214 also accept want sitting in the strategy while the pool stays at zero.
- `get_report_fees` (helpers/shares_math.py:139-156) prices the management fee against the balance before the harvest and the elapsed time, not against the gain. A harvest with zero gain issues no performance-fee shares, but its management-fee shares can still be non-zero.
- The deposit checks (helpers/StrategyCoreResolver.py:380-392) compare the want movements within the `approx` tolerance, not exactly.
- The harvest checks at helpers/StrategyCoreResolver.py:442-457 are strict. After any price rise, each enabled performance fee must have issued its recipient at least one share. A profitable harvest too small for its fees to buy a share therefore fails, even when the ledger matches the report exactly (`Scenarios.FlooredFeesFailStrictHarvestCheck`).
- withdraw(0) (helpers/StrategyCoreResolver.py:234-239) checks both the total supply and the user's shares, and nothing else.
- Converting want to shares and back at the exact price (helpers/shares_math.py:9-32) is within one unit when the price is at most one (`B <= S`, `SharesMath.RoundTripWithinOne`). At higher prices it can lose more. In general the loss is below `B/S + 1` (`SharesMath.RoundTripLoss`). For example, B = 10, S = 1, x = 9 gives 0 shares, so 0 want back (`Scenarios.RoundTripLosesAtHighPrice`).
- In `get_report_fees` (helpers/shares_math.py:146-156), the order of issuance matters only through rounding. In exact arithmetic, issuing at the pool/supply rate keeps that rate, and each floored issuance can only lower it (`SharesMath.IssueNeverRaisesRate`). `Scenarios.ReportOrderMatters` shows a one-share difference.

## Model

| member | source | states |
|---|---|---|
| IntMath.FloorDiv | helpers/shares_math.py:16-18 | Python `//`: the quotient `q` with `b*q <= a < b*q + b` for a positive divisor, and the mirrored bounds for a negative divisor |
| IntMath.Pow10 | helpers/shares_math.py:30 | `10 ** decimals` is at least 1, so the want conversion never divides by zero |
| IntMath.FloorDivNested | helpers/shares_math.py:85 | flooring by two positive divisors in turn equals flooring once by their product |
| SharesMath.WantToShares | helpers/shares_math.py:9-20 | shares for a deposit are the floor of `want*supply/balance`: `B*r <= w*S < B*r + B` for B > 0; zero want or zero supply mints nothing; needs a non-zero balance |
| SharesMath.SharesToWant | helpers/shares_math.py:23-32 | want for a burn is the floor of `shares*ppfs/10^decimals`, and is non-negative for non-negative inputs |
| SharesMath.SharesToWantMonotone | helpers/shares_math.py:23-32 | redeemed want never decreases when the shares or the price grow |
| SharesMath.RoundTripLoss | helpers/shares_math.py:9-32 | at the exact price `ppfs*S == B*10^d`, want -> shares -> want never gains and loses less than `B/S + 1` |
| SharesMath.RoundTripWithinOne | helpers/shares_math.py:9-32 | when `B <= S` the round trip loses at most one unit |
| SharesMath.WithdrawalFeeInWant | helpers/shares_math.py:35-45 | the fee is the floor of gross want times bps over 10,000; zero bps gives 0; with bps <= 10,000 the fee lies between 0 and the gross want |
| SharesMath.WithdrawalFeeInShares | helpers/shares_math.py:48-70 | the fee in shares is the fee in want converted at the pre-withdrawal supply and balance; zero bps gives 0 |
| SharesMath.PerformanceFeeWant | helpers/shares_math.py:73-78 | floor of gain times bps over 10,000; 0 for zero gain or zero bps; between 0 and the gain for bps <= 10,000 |
| SharesMath.ManagementFeeWant | helpers/shares_math.py:80-85 | 0 when the fee, the assets or the elapsed time is 0 |
| SharesMath.ManagementFeeSingleFloor | helpers/shares_math.py:80-85 | the double floor by SECS_PER_YEAR then MAX_BPS equals one floor by their product, and is non-negative for non-negative inputs |
| SharesMath.LegacyPerformanceFeeShares | helpers/shares_math.py:88-115 | the legacy estimate converts one performance fee against a pool net of twice that fee; zero gain, zero bps or zero supply gives 0 |
| SharesMath.LegacyIsEvenSplitTreasuryShares | helpers/shares_math.py:88-115 | when both performance fees are equal and there is no management fee, the legacy estimate equals the treasury issuance of the three-step report (and its divisor is non-zero) |
| SharesMath.ReportFees | helpers/shares_math.py:118-163 | treasury shares are priced at `(S, P)`, management shares at `(S+t, P+feeT)`, strategist shares at `(S+t+m, P+feeT+mgmt)`, where P is the balance plus gain net of all three fees; zero gain zeroes both performance shares; a zero bps zeroes its component |
| SharesMath.IssueNeverRaisesRate | helpers/shares_math.py:146-156 | after one floored issuance, the same want buys no more shares than before it |
| Assertions.AbsoluteApproxIsReflexive | helpers/StrategyCoreResolver.py:10-12 | the assumed absolute-tolerance instance of the imported `approx` is reflexive |
| Assertions.AbsoluteApproxQuotient | helpers/StrategyCoreResolver.py:369-378 | under the absolute tolerance, comparing an integer with a Decimal or float quotient is the integer test `abs(actual*den - num) <= t*abs(den)` |
| StrategyResolver.GmxHookAfterEarn | _setup/StrategyResolver.py:33-51 | passes exactly when the vault's idle want fell and both the fee-GMX tracker balance and the staked-GMX deposit rose by that same amount |
| StrategyResolver.GmxHookAfterHarvest | _setup/StrategyResolver.py:53-61 | passes exactly when the strategy's weth, esGMX and want balances are all non-decreasing |
| StrategyResolver.GmxConfirmTend | _setup/StrategyResolver.py:64-85 | the esGMX decrease must approximate the vester increase; with no vesting, the GMX decrease must approximate the fee-tracker increase; with vesting, it must be at least that increase; with a falling vester balance nothing more is checked |
| CoreResolver.DefaultHooksPass | _setup/StrategyResolver.py:11-31 | no resolver tracks a destination; the deposit and withdraw hooks, and the base earn hook, always pass |
| CoreResolver.ConfirmEarn | helpers/StrategyCoreResolver.py:185-219 | idle want <= 1 passes unconditionally; otherwise a pass implies idle want non-increasing, capital all in the pool or all idle, strategy balance strictly up, and user want unchanged; for the base class a pass is exactly those checks, and for GMX exactly those checks plus the earn hook, so a GMX pass means idle want strictly fell and the fee-GMX tracker and staked-GMX deposit both rose by that drop |
| CoreResolver.EarnRejectsSplitCapital | helpers/StrategyCoreResolver.py:206-214 | want left idle in the strategy while the pool grew fails earn with an AssertionError |
| CoreResolver.ConfirmBurnAndShortfall | helpers/StrategyCoreResolver.py:251-292 | passes exactly when supply and user shares fell by the burn (approx), and any shortfall of idle want is within the strategy's balance and matches its drop (approx) |
| CoreResolver.ConfirmFeeAndSettlement | helpers/StrategyCoreResolver.py:294-314 | with a fee configured: a zero vault balance raises ZeroDivisionError; a pass means both fee figures are positive and the settlement passes |
| CoreResolver.ConfirmSettlement | helpers/StrategyCoreResolver.py:327-354 | raises ZeroDivisionError when the vault's balance after equals the fee; otherwise passes exactly when the treasury's new shares approximate the fee redeposited against the remaining supply, and the user's want rise and the vault's balance fall both approximate the redeemed want net of the fee |
| CoreResolver.ConfirmWithdrawAsWritten | helpers/StrategyCoreResolver.py:221-354 | as written, a non-zero withdrawal with no fee configured never passes; once the burn checks pass it raises NameError |
| CoreResolver.ConfirmWithdraw | helpers/StrategyCoreResolver.py:221-354 | withdraw(0) passes iff supply and user shares are unchanged; otherwise a pass means burn and shortfall checks and then the fee path (fee > 0) or a settlement with zero fee (no fee), under which the treasury's shares are approximately unchanged |
| CoreResolver.WithdrawCorrectionOnlyAffectsNoFee | helpers/StrategyCoreResolver.py:296-329 | the corrected withdraw verifier agrees with the as-written one except on a non-zero withdrawal with no fee |
| CoreResolver.ConfirmDeposit | helpers/StrategyCoreResolver.py:356-400 | a zero price raises (InvalidOperation for a zero amount, else ZeroDivisionError); a pass is exactly supply and user shares up by the expected shares (`amount*1e18/ppfs`, or the caller's override) and vault/user want moved by the amount, each approx |
| CoreResolver.DepositSharesIntegerTest | helpers/StrategyCoreResolver.py:369-399 | under the absolute tolerance, a deposit without an override passes exactly when the minted supply and user shares, times the price, are each within one price of `amount * 1e18`, and both want movements are within 1 of the amount |
| CoreResolver.ConfirmHarvest | helpers/StrategyCoreResolver.py:432-500 | a pass after a price rise means each enabled fee recipient gained shares; a pass means the strategist's share change approximates the strategist issuance and the treasury's the treasury plus management issuances; the base class never passes (no hook_after_harvest); for GMX an iff including the hook |
| CoreResolver.HarvestWithoutGain | helpers/StrategyCoreResolver.py:459-498 | a passing harvest with zero gain leaves the strategist's shares approximately unchanged and the treasury's tracking the management issuance alone |
| CoreResolver.ConfirmTend | helpers/StrategyCoreResolver.py:503-511 | the base tend verifier always fails; the GMX resolver replaces it |
| Scenarios.RoundTripLosesAtHighPrice | helpers/shares_math.py:9-32 | at the exact price 10 (balance 10, supply 1), 9 want buy no share and redeem 0, a loss of 9 |
| Scenarios.ReportFeesExample | helpers/shares_math.py:118-163 | with 10% + 10% performance fees, 2% management fee, one year, supply and balance 1,000,000 and gain 100,000, the report issues 9,433 / 18,867 / 9,433 shares, while the legacy estimate gives 9,259 |
| Scenarios.SmallReport | helpers/shares_math.py:139-156 | gain 6 at 20% / 50% on supply and balance 1: fees 1 / 0 / 3 in want and no shares issued |
| Scenarios.ReportOrderMatters | helpers/shares_math.py:146-156 | in that report, issuing the strategist first would give it one share and the treasury none |
| Scenarios.WithdrawalFeeExample | helpers/shares_math.py:35-70 | burning 100,000 shares at ppfs 1.1e18 with 10 bps: 110,000 gross, 110 fee in want, 100 fee shares at supply 1,000,000 and balance 1,100,000 |
| Scenarios.ExactDepositPasses | helpers/StrategyCoreResolver.py:365-400 | a deposit whose observed changes equal the expected ones passes for every reflexive approx |
| Scenarios.DepositExample | helpers/StrategyCoreResolver.py:365-400 | depositing 500,000 into a 1,000,000 / 1,000,000 vault mints 500,000 shares, and the exact after-snapshot passes |
| Scenarios.FullStakeEarnPasses | helpers/StrategyCoreResolver.py:198-219 | a GMX earn that stakes the idle want fully into the pool, moving both trackers by the same amount, passes |
| Scenarios.ExactWithdrawWithoutFee | helpers/StrategyCoreResolver.py:296-347 | with no fee, an exact withdrawal that leaves want in the vault raises NameError as written but passes once the supply is bound on every path |
| Scenarios.EmptyingWithdrawDividesByZero | helpers/StrategyCoreResolver.py:329-330 | burning all 1,000 shares of a fee-free vault never passes: NameError as written, and ZeroDivisionError when corrected, because the vault's balance after is 0 |
| Scenarios.WithdrawWithoutFeeExample | helpers/StrategyCoreResolver.py:296-347 | withdrawing 100 of 1,000 shares at price 1 with no fee: NameError as written, pass when corrected |
| Scenarios.FeeWithdrawExample | helpers/StrategyCoreResolver.py:294-347 | with the 10 bps fee: burning 100,000 of 1,000,000 shares at price 1.1, with the vault falling to 990,110, the user receiving 109,890 want and the treasury 100 shares, passes both as written and corrected; the after supply leaves the 100 minted fee shares out |
| Scenarios.FeeSharesFailAbsoluteBurnCheck | helpers/StrategyCoreResolver.py:251-257 | the same withdrawal with the minted fee shares counted in the supply (900,100) fails the burn check under the absolute tolerance |
| Scenarios.HarvestRejectsLostWeth | _setup/StrategyResolver.py:53-55 | a GMX harvest after which the strategy holds less weth never passes |
| Scenarios.ExactGmxHarvest | helpers/StrategyCoreResolver.py:432-500 | a GMX harvest whose fee shares land exactly as the report prices them and which loses none of the strategy's weth, esGMX or GMX passes exactly when, after a price rise, each enabled performance fee issued its recipient at least one share |
| Scenarios.UnpaidStrategistFailsHarvest | helpers/StrategyCoreResolver.py:442-451 | after a price rise with a strategist fee enabled, a harvest that issues the strategist no shares fails with AssertionError |
| Scenarios.FlooredFeesFailStrictHarvestCheck | helpers/StrategyCoreResolver.py:442-500 | gain 6 on a vault of supply and balance 1 at 20% / 50%: the report issues no shares, so even the ledger that matches it exactly fails the strict strategist check |
| Scenarios.ExactTendPasses | _setup/StrategyResolver.py:72-81 | a GMX tend that moves exactly the esGMX given up into the vester and the GMX given up into the fee tracker passes |
| Scenarios.VestingTend | _setup/StrategyResolver.py:72-85 | while vesting with the esGMX matched, a GMX tend passes exactly when the fee tracker gained no more GMX than the strategy gave up |
| Scenarios.VestingTendExample | _setup/StrategyResolver.py:72-85 | vesting 50 esGMX while giving up 80 GMX of which 30 reaches the fee tracker passes |

## Findings

| source | as written | input that shows it | evidently intended | confidence | as-written member | corrected member |
|---|---|---|---|---|---|---|
| helpers/StrategyCoreResolver.py:296-329 | `total_supply_before_withdraw` is bound only inside `if before.get("sett.withdrawalFee") > 0`, but line 329 reads it on every path, so every non-zero withdrawal with no fee configured that passes the burn and shortfall checks (lines 253-292) raises NameError | withdrawalFee = 0, supply 1,000 -> 900, user burns 100 shares at ppfs 1e18 and receives 100 want (`Scenarios.WithdrawWithoutFeeExample`) | bind the supply before the action on every path; with a zero fee the treasury's shares should then stay approximately unchanged. The corrected member still divides by zero at line 330 on a no-fee withdrawal that empties the vault (`Scenarios.EmptyingWithdrawDividesByZero`), as the code does | high, not executed | CoreResolver.ConfirmWithdrawAsWritten | CoreResolver.ConfirmWithdraw |

## Left out

- The snapshot builders (`add_*_snap`, `add_entity_*`) and helpers/multicall/functions.py are query plumbing. They only fix the snapshot record's field names. The `shares.*` keys of `add_entity_shares_for_tokens` are never read by a verifier and are not in the record.
- Console printing, `printCompare`, `confirm_harvest_state` and `printHarvestState` print or return `True` and check nothing.
- helpers/utils.py is not part of this model. `approx` is a parameter, and only reflexivity is assumed about it.
- The precision of Decimal (28 significant digits) in `confirm_deposit` and of floats in the withdrawal fee-share check is not modelled. Both quotients are exact reals.
- On-chain values are unsigned 256-bit integers; the model uses unbounded naturals and does not model overflow.
- The `tx` arguments are dropped: no verifier reads them. The `sett.available` figure is in the snapshot record but no verifier reads it either.
- The vault and strategy contracts, the brownie tests, the deployment script and the fee constants in _setup/config.py are not modelled. The constants appear only as example inputs in `Scenarios.ReportFeesExample`.
- A missing snapshot key cannot occur: the record is total by construction.
- The `params` dictionary is a typed record, so a missing `amount` is also ruled out.
