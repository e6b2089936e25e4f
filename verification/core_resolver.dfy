/**
 * The action verifiers of helpers/StrategyCoreResolver.py.  Each compares a
 * snapshot taken before a vault action with one taken after it and passes
 * or raises.  Python's method overriding becomes the `Resolver` datatype:
 * `StrategyCore` is the base class with its default hooks, `GmxStrategy` the
 * subclass of _setup/StrategyResolver.py with its overrides.  Every verifier
 * that calls `approx` takes the comparison as a parameter.
 */
module CoreResolver {
  import opened IntMath
  import opened Assertions
  import opened SharesMath
  import opened Snapshots
  import opened StrategyResolver

  datatype Resolver = StrategyCore | GmxStrategy

  datatype Option<T> = None | Some(value: T)

  /** Wei("1 ether") */
  const OneEther: int := 1_000_000_000_000_000_000

  /** The deposit's parameters: the amount of want, and optionally the shares the caller expects. */
  datatype DepositParams = DepositParams(amount: nat, expectedShares: Option<int>)

  // ===== Hooks =====

  /** get_strategy_destinations: both resolvers track no extra destinations. */
  function StrategyDestinations(r: Resolver): map<string, (string, string)>
  {
    map[]
  }

  function HookAfterConfirmDeposit(r: Resolver, before: Snapshot, after: Snapshot, params: DepositParams): Outcome
  {
    Pass
  }

  function HookAfterConfirmWithdraw(r: Resolver, before: Snapshot, after: Snapshot, amount: nat): Outcome
  {
    Pass
  }

  function HookAfterEarn(r: Resolver, before: Snapshot, after: Snapshot): Outcome
  {
    match r
    case StrategyCore => Pass
    case GmxStrategy => GmxHookAfterEarn(before, after)
  }

  /** The base class defines no hook_after_harvest, so calling it there raises. */
  function HookAfterHarvest(r: Resolver, before: Snapshot, after: Snapshot): Outcome
  {
    match r
    case StrategyCore => Raised(AttributeError)
    case GmxStrategy => GmxHookAfterHarvest(before, after)
  }

  /** The deposit and withdraw hooks are no-ops and no resolver tracks a destination. */
  lemma DefaultHooksPass(r: Resolver, before: Snapshot, after: Snapshot, params: DepositParams, amount: nat)
    ensures StrategyDestinations(r) == map[]
    ensures HookAfterConfirmDeposit(r, before, after, params) == Pass
    ensures HookAfterConfirmWithdraw(r, before, after, amount) == Pass
    ensures HookAfterEarn(StrategyCore, before, after) == Pass
  {
  }

  // ===== Earn =====

  /** Capital is either all deployed in the pool or all idle in the strategy, never split. */
  predicate AllInPoolOrAllIdle(before: Snapshot, after: Snapshot)
  {
    || (after.strategy.balanceOfWant == 0 && after.strategy.balanceOfPool > before.strategy.balanceOfPool)
    || (after.strategy.balanceOfWant > before.strategy.balanceOfWant && after.strategy.balanceOfPool == 0)
  }

  /** The four checks confirm_earn makes before its hook, once the vault holds more than 1 want. */
  predicate EarnChecks(before: Snapshot, after: Snapshot)
  {
    && after.balances.want.sett <= before.balances.want.sett
    && AllInPoolOrAllIdle(before, after)
    && after.strategy.balanceOf > before.strategy.balanceOf
    && after.balances.want.user == before.balances.want.user
  }

  /** confirm_earn */
  function ConfirmEarn(r: Resolver, before: Snapshot, after: Snapshot): (o: Outcome)
    ensures before.balances.want.sett <= 1 ==> o == Pass
    ensures o == Pass && before.balances.want.sett > 1 ==>
              && after.balances.want.sett <= before.balances.want.sett
              && AllInPoolOrAllIdle(before, after)
              && after.strategy.balanceOf > before.strategy.balanceOf
              && after.balances.want.user == before.balances.want.user
    ensures r == StrategyCore ==>
              (o == Pass <==> before.balances.want.sett <= 1 || EarnChecks(before, after))
    ensures r == GmxStrategy ==>
              (o == Pass <==>
                 || before.balances.want.sett <= 1
                 || (EarnChecks(before, after) && GmxHookAfterEarn(before, after) == Pass))
    ensures r == GmxStrategy && o == Pass && before.balances.want.sett > 1 ==>
              && after.balances.want.sett < before.balances.want.sett
              && after.balances.feeGmxTracker.strategy - before.balances.feeGmxTracker.strategy
                 == before.balances.want.sett - after.balances.want.sett
              && after.depositBalances.sgTracker - before.depositBalances.sgTracker
                 == before.balances.want.sett - after.balances.want.sett
    ensures o != Pass ==> o == Raised(AssertionError)
  {
    if before.balances.want.sett <= 1 then Pass
    else
      :- Check(after.balances.want.sett <= before.balances.want.sett);
      :- Check(AllInPoolOrAllIdle(before, after));
      :- Check(after.strategy.balanceOf > before.strategy.balanceOf);
      :- Check(after.balances.want.user == before.balances.want.user);
      HookAfterEarn(r, before, after)
  }

  /** Want both left idle in the strategy and added to the pool fails earn. */
  lemma EarnRejectsSplitCapital(r: Resolver, before: Snapshot, after: Snapshot)
    requires before.balances.want.sett > 1
    requires after.strategy.balanceOfWant > 0
    requires after.strategy.balanceOfPool > before.strategy.balanceOfPool
    ensures ConfirmEarn(r, before, after) == Raised(AssertionError)
  {
  }

  // ===== Withdraw =====

  /** withdraw(0): supply and the user's shares must not move; nothing else is checked. */
  function ConfirmZeroWithdraw(before: Snapshot, after: Snapshot): Outcome
  {
    var supplyKept := after.sett.totalSupply == before.sett.totalSupply;
    :- Check(supplyKept);
    Check(after.balances.sett.user == before.balances.sett.user)
  }

  /** Want a burn of `sharesToBurn` redeems at the price before the action. */
  function ExpectedWant(before: Snapshot, sharesToBurn: nat): int
  {
    SharesToWant(sharesToBurn, before.sett.getPricePerFullShare, before.sett.decimals)
  }

  /** Steps 1 and 2 of confirm_withdraw: the burn, and the strategy covering the vault's shortfall. */
  function ConfirmBurnAndShortfall(approx: ApproxRelation, before: Snapshot, after: Snapshot, sharesToBurn: nat): (o: Outcome)
    ensures o == Pass ==>
              && approx((after.sett.totalSupply + sharesToBurn) as real, before.sett.totalSupply as real, 1)
              && approx((after.balances.sett.user + sharesToBurn) as real, before.balances.sett.user as real, 1)
    ensures var shortfall := ExpectedWant(before, sharesToBurn) - before.balances.want.sett;
            o == Pass && shortfall > 0 ==>
              && shortfall <= before.strategy.balanceOf
              && approx(before.strategy.balanceOf as real, (after.strategy.balanceOf + shortfall) as real, 1)
    ensures var shortfall := ExpectedWant(before, sharesToBurn) - before.balances.want.sett;
            o == Pass <==>
              && approx((after.sett.totalSupply + sharesToBurn) as real, before.sett.totalSupply as real, 1)
              && approx((after.balances.sett.user + sharesToBurn) as real, before.balances.sett.user as real, 1)
              && (shortfall > 0 ==>
                    && shortfall <= before.strategy.balanceOf
                    && approx(before.strategy.balanceOf as real, (after.strategy.balanceOf + shortfall) as real, 1))
  {
    var expectedWant := ExpectedWant(before, sharesToBurn);
    :- Check(approx((after.sett.totalSupply + sharesToBurn) as real, before.sett.totalSupply as real, 1));
    :- Check(approx((after.balances.sett.user + sharesToBurn) as real, before.balances.sett.user as real, 1));
    if expectedWant > before.balances.want.sett then
      var wantRequiredFromStrat := expectedWant - before.balances.want.sett;
      :- Check(wantRequiredFromStrat <= before.strategy.balanceOf);
      Check(approx(before.strategy.balanceOf as real, (after.strategy.balanceOf + wantRequiredFromStrat) as real, 1))
    else
      Pass
  }

  /**
   * The end of step 3 and step 4: the treasury's new shares match the fee
   * redeposited against the supply left after the burn (a float division),
   * the user receives the redeemed want net of the fee, and the vault's
   * balance falls by the same.
   */
  function ConfirmSettlement(approx: ApproxRelation, r: Resolver, before: Snapshot, after: Snapshot, sharesToBurn: nat,
                             feeInWant: int, totalSupplyBeforeWithdraw: int): (o: Outcome)
    ensures var expectedWant := ExpectedWant(before, sharesToBurn);
            o == Pass <==>
              && after.sett.balance != feeInWant
              && approx((after.balances.sett.treasury - before.balances.sett.treasury) as real,
                        (feeInWant * (totalSupplyBeforeWithdraw - sharesToBurn)) as real
                          / (after.sett.balance - feeInWant) as real, 1)
              && approx(after.balances.want.user as real, (before.balances.want.user + expectedWant - feeInWant) as real, 1)
              && approx(before.sett.balance as real, (after.sett.balance + expectedWant - feeInWant) as real, 1)
    ensures after.sett.balance == feeInWant ==> o == Raised(ZeroDivisionError)
  {
    var expectedWant := ExpectedWant(before, sharesToBurn);
    var totalSupplyTemp := totalSupplyBeforeWithdraw - sharesToBurn;
    var poolLeft := after.sett.balance - feeInWant;
    if poolLeft == 0 then Raised(ZeroDivisionError)
    else
      var shareMintCheck := (feeInWant * totalSupplyTemp) as real / poolLeft as real;
      var shareIncrease := after.balances.sett.treasury - before.balances.sett.treasury;
      :- Check(approx(shareIncrease as real, shareMintCheck, 1));
      :- Check(approx(after.balances.want.user as real, (before.balances.want.user + expectedWant - feeInWant) as real, 1));
      :- Check(approx(before.sett.balance as real, (after.sett.balance + expectedWant - feeInWant) as real, 1));
      HookAfterConfirmWithdraw(r, before, after, sharesToBurn)
  }

  /** The withdrawal fee in want, at the price and fee rate before the action. */
  function ExpectedFeeInWant(before: Snapshot, sharesToBurn: nat): int
  {
    WithdrawalFeeInWant(sharesToBurn, before.sett.getPricePerFullShare, before.sett.decimals, before.sett.withdrawalFee)
  }

  /** Step 3 with a withdrawal fee configured: the fee in shares and in want must both be positive. */
  function ConfirmFeeAndSettlement(approx: ApproxRelation, r: Resolver, before: Snapshot, after: Snapshot,
                                   sharesToBurn: nat): (o: Outcome)
    requires before.sett.withdrawalFee > 0
    ensures before.sett.balance == 0 ==> o == Raised(ZeroDivisionError)
    ensures var b := before.sett;
            o == Pass <==>
              && b.balance > 0
              && WithdrawalFeeInShares(sharesToBurn, b.getPricePerFullShare, b.decimals, b.withdrawalFee,
                                       b.totalSupply, b.balance) > 0
              && ExpectedFeeInWant(before, sharesToBurn) > 0
              && ConfirmSettlement(approx, r, before, after, sharesToBurn, ExpectedFeeInWant(before, sharesToBurn),
                                   b.totalSupply) == Pass
  {
    var ppfs := before.sett.getPricePerFullShare;
    var decimals := before.sett.decimals;
    var bps := before.sett.withdrawalFee;
    if before.sett.balance == 0 then Raised(ZeroDivisionError)
    else
      var fee := WithdrawalFeeInShares(sharesToBurn, ppfs, decimals, bps, before.sett.totalSupply, before.sett.balance);
      var feeInWant := WithdrawalFeeInWant(sharesToBurn, ppfs, decimals, bps);
      :- Check(fee > 0 && feeInWant > 0);
      ConfirmSettlement(approx, r, before, after, sharesToBurn, feeInWant, before.sett.totalSupply)
  }

  /**
   * confirm_withdraw as written: `total_supply_before_withdraw` is bound only
   * when a withdrawal fee is configured, so without one the settlement
   * check reads an unbound name and no non-zero withdrawal can pass.
   */
  function ConfirmWithdrawAsWritten(approx: ApproxRelation, r: Resolver, before: Snapshot, after: Snapshot,
                                    amount: nat): (o: Outcome)
    ensures amount > 0 && before.sett.withdrawalFee == 0 ==> o != Pass
    ensures amount > 0 && before.sett.withdrawalFee == 0 && ConfirmBurnAndShortfall(approx, before, after, amount) == Pass
            ==> o == Raised(NameError)
  {
    if amount == 0 then ConfirmZeroWithdraw(before, after)
    else
      :- ConfirmBurnAndShortfall(approx, before, after, amount);
      if before.sett.withdrawalFee == 0 then Raised(NameError)
      else ConfirmFeeAndSettlement(approx, r, before, after, amount)
  }

  /**
   * confirm_withdraw with `total_supply_before_withdraw` bound on every path,
   * to the supply before the action as the fee path binds it.
   */
  function ConfirmWithdraw(approx: ApproxRelation, r: Resolver, before: Snapshot, after: Snapshot,
                           amount: nat): (o: Outcome)
    ensures amount == 0 ==>
              (o == Pass <==> after.sett.totalSupply == before.sett.totalSupply
                              && after.balances.sett.user == before.balances.sett.user)
    ensures amount > 0 ==>
              (o == Pass <==>
                 && ConfirmBurnAndShortfall(approx, before, after, amount) == Pass
                 && if before.sett.withdrawalFee == 0
                    then ConfirmSettlement(approx, r, before, after, amount, 0, before.sett.totalSupply) == Pass
                    else ConfirmFeeAndSettlement(approx, r, before, after, amount) == Pass)
    ensures o == Pass && amount > 0 && before.sett.withdrawalFee == 0 ==>
              && approx((after.balances.sett.treasury - before.balances.sett.treasury) as real, 0.0, 1)
              && approx(after.balances.want.user as real, (before.balances.want.user + ExpectedWant(before, amount)) as real, 1)
              && approx(before.sett.balance as real, (after.sett.balance + ExpectedWant(before, amount)) as real, 1)
  {
    if amount == 0 then ConfirmZeroWithdraw(before, after)
    else
      :- ConfirmBurnAndShortfall(approx, before, after, amount);
      if before.sett.withdrawalFee == 0 then ConfirmSettlement(approx, r, before, after, amount, 0, before.sett.totalSupply)
      else ConfirmFeeAndSettlement(approx, r, before, after, amount)
  }

  /** The correction changes only the no-fee path of a non-zero withdrawal. */
  lemma WithdrawCorrectionOnlyAffectsNoFee(approx: ApproxRelation, r: Resolver, before: Snapshot, after: Snapshot,
                                           amount: nat)
    requires amount == 0 || before.sett.withdrawalFee > 0
    ensures ConfirmWithdraw(approx, r, before, after, amount) == ConfirmWithdrawAsWritten(approx, r, before, after, amount)
  {
  }

  // ===== Deposit =====

  /**
   * The shares a deposit should mint, as the quotient num / den: the caller's
   * expected share count if given, else amount * 1e18 / ppfs.
   */
  function ExpectedShares(params: DepositParams, ppfs: nat): (q: real)
    requires ppfs != 0
  {
    if params.expectedShares.Some? then params.expectedShares.value as real
    else (params.amount * OneEther) as real / ppfs as real
  }

  /** confirm_deposit */
  function ConfirmDeposit(approx: ApproxRelation, r: Resolver, before: Snapshot, after: Snapshot,
                          params: DepositParams): (o: Outcome)
    ensures before.sett.getPricePerFullShare == 0 ==>
              o == Raised(if params.amount == 0 then InvalidOperation else ZeroDivisionError)
    ensures o == Pass ==>
              && before.sett.getPricePerFullShare > 0
              && approx(after.balances.want.sett as real, (before.balances.want.sett + params.amount) as real, 1)
              && approx(after.balances.want.user as real, (before.balances.want.user - params.amount) as real, 1)
    ensures var ppfs := before.sett.getPricePerFullShare;
            o == Pass && params.expectedShares.None? ==>
              && approx(after.sett.totalSupply as real,
                        before.sett.totalSupply as real + (params.amount * OneEther) as real / ppfs as real, 1)
              && approx(after.balances.sett.user as real,
                        before.balances.sett.user as real + (params.amount * OneEther) as real / ppfs as real, 1)
    ensures o == Pass <==>
              && before.sett.getPricePerFullShare > 0
              && approx(after.sett.totalSupply as real,
                        before.sett.totalSupply as real + ExpectedShares(params, before.sett.getPricePerFullShare), 1)
              && approx(after.balances.want.sett as real, (before.balances.want.sett + params.amount) as real, 1)
              && approx(after.balances.want.user as real, (before.balances.want.user - params.amount) as real, 1)
              && approx(after.balances.sett.user as real,
                        before.balances.sett.user as real + ExpectedShares(params, before.sett.getPricePerFullShare), 1)
    ensures o == Pass && params.expectedShares.Some? ==>
              && approx(after.sett.totalSupply as real, (before.sett.totalSupply + params.expectedShares.value) as real, 1)
              && approx(after.balances.sett.user as real, (before.balances.sett.user + params.expectedShares.value) as real, 1)
  {
    var ppfs := before.sett.getPricePerFullShare;
    if ppfs == 0 then Raised(if params.amount * OneEther == 0 then InvalidOperation else ZeroDivisionError)
    else
      var expectedShares := ExpectedShares(params, ppfs);
      :- Check(approx(after.sett.totalSupply as real, before.sett.totalSupply as real + expectedShares, 1));
      :- Check(approx(after.balances.want.sett as real, (before.balances.want.sett + params.amount) as real, 1));
      :- Check(approx(after.balances.want.user as real, (before.balances.want.user - params.amount) as real, 1));
      :- Check(approx(after.balances.sett.user as real, before.balances.sett.user as real + expectedShares, 1));
      HookAfterConfirmDeposit(r, before, after, params)
  }

  /**
   * Under the absolute tolerance, the deposit's Decimal share checks are
   * integer tests: the minted shares times the price are within one price
   * of `amount * 1e18`.
   */
  lemma DepositSharesIntegerTest(r: Resolver, before: Snapshot, after: Snapshot, amount: nat)
    requires before.sett.getPricePerFullShare > 0
    ensures var ppfs := before.sett.getPricePerFullShare;
            ConfirmDeposit(AbsoluteApprox, r, before, after, DepositParams(amount, None)) == Pass <==>
              && Abs((after.sett.totalSupply - before.sett.totalSupply) * ppfs - amount * OneEther) <= ppfs
              && Abs(after.balances.want.sett - (before.balances.want.sett + amount)) <= 1
              && Abs(after.balances.want.user - (before.balances.want.user - amount)) <= 1
              && Abs((after.balances.sett.user - before.balances.sett.user) * ppfs - amount * OneEther) <= ppfs
  {
    var ppfs := before.sett.getPricePerFullShare;
    var q := (amount * OneEther) as real / ppfs as real;
    SupplyShiftApprox(after.sett.totalSupply, before.sett.totalSupply, q);
    AbsoluteApproxQuotient(after.sett.totalSupply - before.sett.totalSupply, amount * OneEther, ppfs, 1);
    SupplyShiftApprox(after.balances.sett.user, before.balances.sett.user, q);
    AbsoluteApproxQuotient(after.balances.sett.user - before.balances.sett.user, amount * OneEther, ppfs, 1);
  }

  /** Comparing `after` with `before + q` is comparing the change with `q`. */
  lemma SupplyShiftApprox(after: int, before: int, q: real)
    ensures AbsoluteApprox(after as real, before as real + q, 1)
            <==> AbsoluteApprox((after - before) as real, q, 1)
  {
  }

  // ===== Harvest =====

  /** The get_report_fees call confirm_harvest makes, from the before snapshot and the elapsed time. */
  predicate HarvestFeesDefined(before: Snapshot, after: Snapshot)
  {
    var b := before.sett;
    ReportFeesDefined(after.sett.balance - b.balance, b.performanceFeeGovernance, b.performanceFeeStrategist,
                      b.managementFee, after.sett.lastHarvestedAt - b.lastHarvestedAt, b.totalSupply, b.balance)
  }

  function HarvestFees(before: Snapshot, after: Snapshot): FeeReport
    requires HarvestFeesDefined(before, after)
  {
    var b := before.sett;
    ReportFees(after.sett.balance - b.balance, b.performanceFeeGovernance, b.performanceFeeStrategist,
               b.managementFee, after.sett.lastHarvestedAt - b.lastHarvestedAt, b.totalSupply, b.balance)
  }

  /** confirm_harvest */
  function ConfirmHarvest(approx: ApproxRelation, r: Resolver, before: Snapshot, after: Snapshot): (o: Outcome)
    ensures var valueGained := after.sett.getPricePerFullShare > before.sett.getPricePerFullShare;
            o == Pass && valueGained ==>
              && (before.sett.performanceFeeStrategist > 0 ==>
                    after.balances.sett.strategist > before.balances.sett.strategist)
              && (before.sett.performanceFeeGovernance > 0 ==>
                    after.balances.sett.treasury > before.balances.sett.treasury)
    ensures o == Pass ==>
              && HarvestFeesDefined(before, after)
              && approx((after.balances.sett.strategist - before.balances.sett.strategist) as real,
                        HarvestFees(before, after).sharesPerfStrategist as real, 1)
              && approx((after.balances.sett.treasury - before.balances.sett.treasury) as real,
                        (HarvestFees(before, after).sharesPerfTreasury + HarvestFees(before, after).sharesManagement) as real, 1)
    ensures r == StrategyCore ==> o != Pass
    ensures var valueGained := after.sett.getPricePerFullShare > before.sett.getPricePerFullShare;
            r == GmxStrategy ==>
              (o == Pass <==>
                 && (before.sett.performanceFeeStrategist > 0 && valueGained ==>
                       after.balances.sett.strategist > before.balances.sett.strategist)
                 && (before.sett.performanceFeeGovernance > 0 && valueGained ==>
                       after.balances.sett.treasury > before.balances.sett.treasury)
                 && HarvestFeesDefined(before, after)
                 && approx((after.balances.sett.strategist - before.balances.sett.strategist) as real,
                           HarvestFees(before, after).sharesPerfStrategist as real, 1)
                 && approx((after.balances.sett.treasury - before.balances.sett.treasury) as real,
                           (HarvestFees(before, after).sharesPerfTreasury + HarvestFees(before, after).sharesManagement) as real, 1)
                 && GmxHookAfterHarvest(before, after) == Pass)
  {
    var valueGained := after.sett.getPricePerFullShare > before.sett.getPricePerFullShare;
    :- Check(!(before.sett.performanceFeeStrategist > 0 && valueGained)
             || after.balances.sett.strategist > before.balances.sett.strategist);
    :- Check(!(before.sett.performanceFeeGovernance > 0 && valueGained)
             || after.balances.sett.treasury > before.balances.sett.treasury);
    if !HarvestFeesDefined(before, after) then Raised(ZeroDivisionError)
    else
      var fees := HarvestFees(before, after);
      var deltaStrategist := after.balances.sett.strategist - before.balances.sett.strategist;
      :- Check(approx(deltaStrategist as real, fees.sharesPerfStrategist as real, 1));
      var deltaTreasury := after.balances.sett.treasury - before.balances.sett.treasury;
      :- Check(approx(deltaTreasury as real, (fees.sharesPerfTreasury + fees.sharesManagement) as real, 1));
      HookAfterHarvest(r, before, after)
  }

  /**
   * A harvest with no gain issues no performance-fee shares: the strategist's
   * shares must stay approximately unchanged and the treasury's track the
   * management fee alone.
   */
  lemma HarvestWithoutGain(approx: ApproxRelation, r: Resolver, before: Snapshot, after: Snapshot)
    requires after.sett.balance == before.sett.balance
    requires ConfirmHarvest(approx, r, before, after) == Pass
    ensures approx((after.balances.sett.strategist - before.balances.sett.strategist) as real, 0.0, 1)
    ensures HarvestFeesDefined(before, after)
            && approx((after.balances.sett.treasury - before.balances.sett.treasury) as real,
                      HarvestFees(before, after).sharesManagement as real, 1)
  {
  }

  // ===== Tend =====

  /** confirm_tend: the base class always fails ("strategy must implement"). */
  function ConfirmTend(approx: ApproxRelation, r: Resolver, before: Snapshot, after: Snapshot): (o: Outcome)
    ensures r == StrategyCore ==> o == Raised(AssertionError)
    ensures r == GmxStrategy ==> o == GmxConfirmTend(approx, before, after)
  {
    match r
    case StrategyCore => Raised(AssertionError)
    case GmxStrategy => GmxConfirmTend(approx, before, after)
  }
}
