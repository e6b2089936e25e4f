/**
 * One balance snapshot: every figure the snapshot builders of
 * helpers/StrategyCoreResolver.py register, as a typed record instead of a
 * dictionary of dotted keys.  `s.balances.want.sett` is the key
 * "balances.want.sett", `s.sett.totalSupply` is "sett.totalSupply".  Every
 * token is read for every tracked entity, so no lookup can miss.  All figures
 * are on-chain unsigned integers.
 */
module Snapshots {

  /** One token's balance held by each tracked entity. */
  datatype Holdings = Holdings(user: nat, sett: nat, strategy: nat, treasury: nat, strategist: nat)

  /** "balances.<token>.<entity>" for every registered token. */
  datatype Balances = Balances(
    want: Holdings,
    sett: Holdings,              // the vault's own shares
    esgmx: Holdings,
    stakedGmxTracker: Holdings,
    feeGmxTracker: Holdings,
    gmxVester: Holdings,
    weth: Holdings)

  /** "sett.<field>": the vault's ledger figures. */
  datatype SettView = SettView(
    balance: nat,
    available: nat,
    getPricePerFullShare: nat,
    decimals: nat,
    totalSupply: nat,
    withdrawalFee: nat,
    managementFee: nat,
    lastHarvestedAt: nat,
    performanceFeeGovernance: nat,
    performanceFeeStrategist: nat)

  /** "strategy.<field>": want deployed in the pool, idle in the strategy, and their total. */
  datatype StrategyView = StrategyView(balanceOfPool: nat, balanceOfWant: nat, balanceOf: nat)

  /** "depositBalances.sgTracker": the strategy's deposit in the staked-GMX tracker. */
  datatype DepositBalances = DepositBalances(sgTracker: nat)

  datatype Snapshot = Snapshot(
    balances: Balances,
    sett: SettView,
    strategy: StrategyView,
    depositBalances: DepositBalances)
}
