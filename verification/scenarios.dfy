/**
 * Worked cases: concrete inputs for the fee arithmetic and concrete
 * snapshot pairs for the verifiers, plus the general "an exact action
 * passes" statements they instantiate.  The snapshot cases hold for every
 * reflexive `approx`, because their observed changes equal the expected
 * ones exactly.
 */
module Scenarios {
  import opened IntMath
  import opened Assertions
  import opened SharesMath
  import opened Snapshots
  import opened CoreResolver

  const NoHoldings := Holdings(0, 0, 0, 0, 0)

  const NoBalances := Balances(NoHoldings, NoHoldings, NoHoldings, NoHoldings, NoHoldings, NoHoldings, NoHoldings)

  /** A vault with the given supply and balance, all of it idle, priced at `ppfs` with 18 decimals. */
  function Vault(supply: nat, balance: nat, ppfs: nat, withdrawalFee: nat): Snapshot
  {
    Snapshot(
      NoBalances.(want := NoHoldings.(sett := balance)),
      SettView(balance, balance, ppfs, 18, supply, withdrawalFee, 0, 0, 0, 0),
      StrategyView(0, 0, 0),
      DepositBalances(0))
  }

  // ===== Fee arithmetic =====

  /**
   * Above a price of one the round trip can lose more than one unit: with
   * balance 10 and supply 1 (an exact price of 10), 9 want buy no share and
   * redeem nothing.
   */
  lemma RoundTripLosesAtHighPrice()
    ensures 10_000_000_000_000_000_000 * 1 == 10 * Pow10(18)
    ensures WantToShares(9, 1, 10) == 0
    ensures SharesToWant(WantToShares(9, 1, 10), 10_000_000_000_000_000_000, 18) == 0
  {
    Pow10Of18();
    assert WantToShares(9, 1, 10) == 0;
  }

  /** Harvest with the configured fees (10% + 10% performance, 2% management) over one year. */
  lemma ReportFeesExample()
    ensures ReportFeesDefined(100_000, 1_000, 1_000, 200, SecsPerYear, 1_000_000, 1_000_000)
    ensures ReportFees(100_000, 1_000, 1_000, 200, SecsPerYear, 1_000_000, 1_000_000) == FeeReport(9_433, 18_867, 9_433)
    ensures LegacyPerformanceFeeShares(100_000, 1_000, 1_000_000, 1_000_000) == 9_259
  {
    assert ManagementFeeWant(1_000_000, SecsPerYear, 200) == 20_000 by {
      ManagementFeeSingleFloor(1_000_000, SecsPerYear, 200);
      assert 200 * 1_000_000 * SecsPerYear == 20_000 * (SecsPerYear * MaxBps);
    }
    assert ReportFeeWants(100_000, 1_000, 1_000, 200, SecsPerYear, 1_000_000) == FeeWants(10_000, 20_000, 10_000);
    assert WantToShares(10_000, 1_000_000, 1_060_000) == 9_433;
    assert WantToShares(20_000, 1_009_433, 1_070_000) == 18_867;
    assert WantToShares(10_000, 1_028_300, 1_090_000) == 9_433;
  }

  /** The treasury-first report for a gain of 6 at 20% and 50%, on a supply and balance of 1. */
  lemma SmallReport()
    ensures ReportFeeWants(6, 2_000, 5_000, 0, 0, 1) == FeeWants(1, 0, 3)
    ensures ReportFeesDefined(6, 2_000, 5_000, 0, 0, 1, 1)
    ensures ReportFees(6, 2_000, 5_000, 0, 0, 1, 1) == FeeReport(0, 0, 0)
  {
    assert ReportFeeWants(6, 2_000, 5_000, 0, 0, 1) == FeeWants(1, 0, 3);
    assert WantToShares(1, 1, 3) == 0 && WantToShares(0, 1, 4) == 0 && WantToShares(3, 1, 4) == 0;
  }

  /**
   * The issuance order matters: in SmallReport the treasury-first report
   * issues the strategist nothing, while issuing the strategist's 3 want
   * first, against the pool of 3, would give it one share and the
   * treasury's 1 want none.
   */
  lemma ReportOrderMatters()
    ensures ReportPool(6, 1, ReportFeeWants(6, 2_000, 5_000, 0, 0, 1)) == 3
    ensures WantToShares(3, 1, 3) == 1 && WantToShares(1, 1 + 1, 3 + 3) == 0
  {
    assert ReportFeeWants(6, 2_000, 5_000, 0, 0, 1) == FeeWants(1, 0, 3);
    FloorDivUnique(3, 3, 1);
    FloorDivUnique(2, 6, 0);
  }

  /** Burning 100,000 shares at a price of 1.1 with a 0.1% fee: 110,000 gross, 110 fee, 109,890 net. */
  lemma WithdrawalFeeExample()
    ensures SharesToWant(100_000, 1_100_000_000_000_000_000, 18) == 110_000
    ensures WithdrawalFeeInWant(100_000, 1_100_000_000_000_000_000, 18, 10) == 110
    ensures WithdrawalFeeInShares(100_000, 1_100_000_000_000_000_000, 18, 10, 1_000_000, 1_100_000) == 100
  {
    Pow10Of18();
  }

  // ===== Deposit =====

  /** A deposit that moves exactly the expected want and mints exactly the expected shares passes. */
  lemma ExactDepositPasses(approx: ApproxRelation, r: Resolver, before: Snapshot, after: Snapshot, params: DepositParams)
    requires Reflexive(approx)
    requires before.sett.getPricePerFullShare > 0
    requires after.sett.totalSupply as real
             == before.sett.totalSupply as real + ExpectedShares(params, before.sett.getPricePerFullShare)
    requires after.balances.sett.user as real
             == before.balances.sett.user as real + ExpectedShares(params, before.sett.getPricePerFullShare)
    requires after.balances.want.sett == before.balances.want.sett + params.amount
    requires after.balances.want.user == before.balances.want.user - params.amount
    ensures ConfirmDeposit(approx, r, before, after, params) == Pass
  {
  }

  /** Depositing 500,000 into a 1,000,000 / 1,000,000 vault mints 500,000 shares and passes. */
  lemma DepositExample(approx: ApproxRelation)
    requires Reflexive(approx)
    ensures WantToShares(500_000, 1_000_000, 1_000_000) == 500_000
    ensures var before := Vault(1_000_000, 1_000_000, OneEther, 0)
                            .(balances := NoBalances.(want := NoHoldings.(user := 500_000, sett := 1_000_000)));
            var after := Vault(1_500_000, 1_500_000, OneEther, 0)
                           .(balances := NoBalances.(want := NoHoldings.(sett := 1_500_000),
                                                     sett := NoHoldings.(user := 500_000)));
            ConfirmDeposit(approx, GmxStrategy, before, after, DepositParams(500_000, None)) == Pass
  {
    var before := Vault(1_000_000, 1_000_000, OneEther, 0)
                    .(balances := NoBalances.(want := NoHoldings.(user := 500_000, sett := 1_000_000)));
    var after := Vault(1_500_000, 1_500_000, OneEther, 0)
                   .(balances := NoBalances.(want := NoHoldings.(sett := 1_500_000),
                                             sett := NoHoldings.(user := 500_000)));
    assert ExpectedShares(DepositParams(500_000, None), OneEther) == 500_000.0;
    ExactDepositPasses(approx, GmxStrategy, before, after, DepositParams(500_000, None));
  }

  // ===== Earn =====

  /** An earn that stakes all of the vault's idle want into the GMX pool passes. */
  lemma FullStakeEarnPasses(before: Snapshot, after: Snapshot)
    requires before.balances.want.sett > 1
    requires after.balances.want.sett < before.balances.want.sett
    requires after.strategy.balanceOfWant == 0 && after.strategy.balanceOfPool > before.strategy.balanceOfPool
    requires after.strategy.balanceOf > before.strategy.balanceOf
    requires after.balances.want.user == before.balances.want.user
    requires after.balances.feeGmxTracker.strategy
             == before.balances.feeGmxTracker.strategy + (before.balances.want.sett - after.balances.want.sett)
    requires after.depositBalances.sgTracker
             == before.depositBalances.sgTracker + (before.balances.want.sett - after.balances.want.sett)
    ensures ConfirmEarn(GmxStrategy, before, after) == Pass
  {
  }

  // ===== Withdraw =====

  /**
   * Without a withdrawal fee, a withdrawal that burns exactly the shares,
   * pays out exactly the redeemed want from idle want, and mints the
   * treasury nothing, and that leaves want in the vault, fails as written
   * (NameError) but passes once the supply before the withdrawal is bound on
   * that path.  A withdrawal that empties the vault still divides by zero
   * (`EmptyingWithdrawDividesByZero`).
   */
  lemma ExactWithdrawWithoutFee(approx: ApproxRelation, r: Resolver, before: Snapshot, after: Snapshot, amount: nat)
    requires Reflexive(approx)
    requires amount > 0 && before.sett.withdrawalFee == 0
    requires after.sett.totalSupply + amount == before.sett.totalSupply
    requires after.balances.sett.user + amount == before.balances.sett.user
    requires ExpectedWant(before, amount) <= before.balances.want.sett
    requires after.balances.sett.treasury == before.balances.sett.treasury
    requires after.balances.want.user == before.balances.want.user + ExpectedWant(before, amount)
    requires after.sett.balance + ExpectedWant(before, amount) == before.sett.balance
    requires after.sett.balance > 0
    ensures ConfirmWithdrawAsWritten(approx, r, before, after, amount) == Raised(NameError)
    ensures ConfirmWithdraw(approx, r, before, after, amount) == Pass
  {
    assert ConfirmBurnAndShortfall(approx, before, after, amount) == Pass;
    var poolLeft := after.sett.balance - 0;
    assert (0 * (before.sett.totalSupply - amount)) as real / poolLeft as real == 0.0;
  }

  /** Withdrawing 100 of 1,000 shares at a price of 1 with no fee configured. */
  lemma WithdrawWithoutFeeExample(approx: ApproxRelation)
    requires Reflexive(approx)
    ensures var before := Vault(1_000, 1_000, OneEther, 0)
                            .(balances := NoBalances.(want := NoHoldings.(sett := 1_000),
                                                      sett := NoHoldings.(user := 100)));
            var after := Vault(900, 900, OneEther, 0)
                           .(balances := NoBalances.(want := NoHoldings.(sett := 900, user := 100)));
            && ConfirmWithdrawAsWritten(approx, GmxStrategy, before, after, 100) == Raised(NameError)
            && ConfirmWithdraw(approx, GmxStrategy, before, after, 100) == Pass
  {
    var before := Vault(1_000, 1_000, OneEther, 0)
                    .(balances := NoBalances.(want := NoHoldings.(sett := 1_000),
                                              sett := NoHoldings.(user := 100)));
    var after := Vault(900, 900, OneEther, 0)
                   .(balances := NoBalances.(want := NoHoldings.(sett := 900, user := 100)));
    Pow10Of18();
    assert ExpectedWant(before, 100) == 100;
    ExactWithdrawWithoutFee(approx, GmxStrategy, before, after, 100);
  }

  /**
   * A fee-charging withdrawal at 10 bps: 100,000 shares burned at a price of
   * 1.1 redeem 110,000 want, 110 of which is the fee, redeposited as 100
   * treasury shares against the 900,000 shares left.  The after-snapshot's
   * supply leaves those 100 minted shares out: the burn check compares the
   * supply with the burn alone (see `FeeSharesFailAbsoluteBurnCheck`).
   */
  lemma FeeWithdrawExample(approx: ApproxRelation)
    requires Reflexive(approx)
    ensures var before := Vault(1_000_000, 1_100_000, 1_100_000_000_000_000_000, 10)
                            .(balances := NoBalances.(want := NoHoldings.(sett := 1_100_000),
                                                      sett := NoHoldings.(user := 100_000)));
            var after := Vault(900_000, 990_110, 1_100_000_000_000_000_000, 10)
                           .(balances := NoBalances.(want := NoHoldings.(sett := 990_110, user := 109_890),
                                                     sett := NoHoldings.(treasury := 100)));
            && ConfirmWithdraw(approx, GmxStrategy, before, after, 100_000) == Pass
            && ConfirmWithdrawAsWritten(approx, GmxStrategy, before, after, 100_000) == Pass
  {
    var before := Vault(1_000_000, 1_100_000, 1_100_000_000_000_000_000, 10)
                    .(balances := NoBalances.(want := NoHoldings.(sett := 1_100_000),
                                              sett := NoHoldings.(user := 100_000)));
    var after := Vault(900_000, 990_110, 1_100_000_000_000_000_000, 10)
                   .(balances := NoBalances.(want := NoHoldings.(sett := 990_110, user := 109_890),
                                             sett := NoHoldings.(treasury := 100)));
    WithdrawalFeeExample();
    assert ExpectedWant(before, 100_000) == 110_000;
    assert ExpectedFeeInWant(before, 100_000) == 110;
    assert ConfirmBurnAndShortfall(approx, before, after, 100_000) == Pass;
    assert (110 * (1_000_000 - 100_000)) as real / (990_110 - 110) as real == 100.0;
    assert ConfirmSettlement(approx, GmxStrategy, before, after, 100_000, 110, 1_000_000) == Pass;
    WithdrawCorrectionOnlyAffectsNoFee(approx, GmxStrategy, before, after, 100_000);
  }

  /**
   * The same withdrawal with the treasury's 100 fee shares counted in the
   * supply (900,100 after) fails the burn check under the absolute
   * tolerance: it passes only for an `approx` that tolerates the minted shares.
   */
  lemma FeeSharesFailAbsoluteBurnCheck()
    ensures var before := Vault(1_000_000, 1_100_000, 1_100_000_000_000_000_000, 10)
                            .(balances := NoBalances.(want := NoHoldings.(sett := 1_100_000),
                                                      sett := NoHoldings.(user := 100_000)));
            var after := Vault(900_100, 990_110, 1_100_000_000_000_000_000, 10)
                           .(balances := NoBalances.(want := NoHoldings.(sett := 990_110, user := 109_890),
                                                     sett := NoHoldings.(treasury := 100)));
            ConfirmWithdraw(AbsoluteApprox, GmxStrategy, before, after, 100_000) == Raised(AssertionError)
  {
    var before := Vault(1_000_000, 1_100_000, 1_100_000_000_000_000_000, 10)
                    .(balances := NoBalances.(want := NoHoldings.(sett := 1_100_000),
                                              sett := NoHoldings.(user := 100_000)));
    var after := Vault(900_100, 990_110, 1_100_000_000_000_000_000, 10)
                   .(balances := NoBalances.(want := NoHoldings.(sett := 990_110, user := 109_890),
                                             sett := NoHoldings.(treasury := 100)));
    assert !AbsoluteApprox((900_100 + 100_000) as real, 1_000_000 as real, 1);
    assert ConfirmBurnAndShortfall(AbsoluteApprox, before, after, 100_000) == Raised(AssertionError);
  }

  /**
   * Burning all 1,000 shares of a fee-free vault empties it: as written the
   * settlement reads the unbound supply (NameError); corrected, it divides
   * by the vault's balance after, net of a zero fee, which is 0.
   */
  lemma EmptyingWithdrawDividesByZero(approx: ApproxRelation)
    ensures var before := Vault(1_000, 1_000, OneEther, 0)
                            .(balances := NoBalances.(want := NoHoldings.(sett := 1_000),
                                                      sett := NoHoldings.(user := 1_000)));
            var after := Vault(0, 0, OneEther, 0)
                           .(balances := NoBalances.(want := NoHoldings.(user := 1_000)));
            && ConfirmWithdrawAsWritten(approx, GmxStrategy, before, after, 1_000) != Pass
            && (ConfirmBurnAndShortfall(approx, before, after, 1_000) == Pass ==>
                  && ConfirmWithdrawAsWritten(approx, GmxStrategy, before, after, 1_000) == Raised(NameError)
                  && ConfirmWithdraw(approx, GmxStrategy, before, after, 1_000) == Raised(ZeroDivisionError))
  {
  }

  // ===== Harvest =====

  /** A GMX harvest after which the strategy holds less weth than before fails, whatever the fees. */
  lemma HarvestRejectsLostWeth(approx: ApproxRelation, before: Snapshot, after: Snapshot)
    requires after.balances.weth.strategy < before.balances.weth.strategy
    ensures ConfirmHarvest(approx, GmxStrategy, before, after) != Pass
  {
  }

  /**
   * A GMX harvest whose fee shares land exactly as the report prices them
   * and which loses none of the strategy's weth, esGMX or GMX passes exactly
   * when the strict checks hold: after a price rise, each enabled
   * performance fee must have issued its recipient at least one share.
   */
  lemma ExactGmxHarvest(approx: ApproxRelation, before: Snapshot, after: Snapshot)
    requires Reflexive(approx)
    requires HarvestFeesDefined(before, after)
    requires after.balances.sett.strategist - before.balances.sett.strategist
             == HarvestFees(before, after).sharesPerfStrategist
    requires after.balances.sett.treasury - before.balances.sett.treasury
             == HarvestFees(before, after).sharesPerfTreasury + HarvestFees(before, after).sharesManagement
    requires before.balances.weth.strategy <= after.balances.weth.strategy
    requires before.balances.esgmx.strategy <= after.balances.esgmx.strategy
    requires before.balances.want.strategy <= after.balances.want.strategy
    ensures var valueGained := after.sett.getPricePerFullShare > before.sett.getPricePerFullShare;
            var fees := HarvestFees(before, after);
            ConfirmHarvest(approx, GmxStrategy, before, after) == Pass <==>
              && (valueGained && before.sett.performanceFeeStrategist > 0 ==> fees.sharesPerfStrategist > 0)
              && (valueGained && before.sett.performanceFeeGovernance > 0 ==>
                    fees.sharesPerfTreasury + fees.sharesManagement > 0)
  {
  }

  /** A vault of supply and balance 1 charging 20% to the treasury and 50% to the strategist. */
  const SmallHarvestBefore := Vault(1, 1, OneEther, 0)
                                .(sett := SettView(1, 1, OneEther, 18, 1, 0, 0, 0, 2_000, 5_000))

  /** The same vault after a harvest that gained 6, with no fee shares issued. */
  const SmallHarvestAfter := Vault(1, 7, 7 * OneEther, 0)
                               .(sett := SettView(7, 7, 7 * OneEther, 18, 1, 0, 0, 0, 2_000, 5_000))

  /** The report for the small harvest issues no shares. */
  lemma SmallHarvestFees()
    ensures HarvestFeesDefined(SmallHarvestBefore, SmallHarvestAfter)
    ensures HarvestFees(SmallHarvestBefore, SmallHarvestAfter) == FeeReport(0, 0, 0)
  {
    assert HarvestFeesDefined(SmallHarvestBefore, SmallHarvestAfter) by {
      SmallReport();
      assert HarvestFeesDefined(SmallHarvestBefore, SmallHarvestAfter) == ReportFeesDefined(6, 2_000, 5_000, 0, 0, 1, 1);
    }
    assert HarvestFees(SmallHarvestBefore, SmallHarvestAfter) == FeeReport(0, 0, 0) by {
      SmallReport();
      assert HarvestFees(SmallHarvestBefore, SmallHarvestAfter) == ReportFees(6, 2_000, 5_000, 0, 0, 1, 1);
    }
  }

  /**
   * A profitable harvest too small for its fees to buy a share: even a
   * ledger that matches the report exactly (no fee shares) fails the strict
   * strategist check.
   */
  lemma FlooredFeesFailStrictHarvestCheck(approx: ApproxRelation)
    ensures HarvestFeesDefined(SmallHarvestBefore, SmallHarvestAfter)
    ensures HarvestFees(SmallHarvestBefore, SmallHarvestAfter) == FeeReport(0, 0, 0)
    ensures ConfirmHarvest(approx, GmxStrategy, SmallHarvestBefore, SmallHarvestAfter) == Raised(AssertionError)
  {
    SmallHarvestFees();
    UnpaidStrategistFailsHarvest(approx, SmallHarvestBefore, SmallHarvestAfter);
  }

  /** After a price rise with a strategist fee enabled, a harvest that issues the strategist nothing fails. */
  lemma UnpaidStrategistFailsHarvest(approx: ApproxRelation, before: Snapshot, after: Snapshot)
    requires after.sett.getPricePerFullShare > before.sett.getPricePerFullShare
    requires before.sett.performanceFeeStrategist > 0
    requires after.balances.sett.strategist <= before.balances.sett.strategist
    ensures ConfirmHarvest(approx, GmxStrategy, before, after) == Raised(AssertionError)
  {
  }

  // ===== Tend =====

  /** A tend that moves exactly the esGMX given up into the vester and the GMX given up into the fee tracker passes. */
  lemma ExactTendPasses(approx: ApproxRelation, before: Snapshot, after: Snapshot)
    requires Reflexive(approx)
    requires before.balances.esgmx.strategy - after.balances.esgmx.strategy
             == after.balances.gmxVester.strategy - before.balances.gmxVester.strategy
    requires before.balances.want.strategy - after.balances.want.strategy
             == after.balances.feeGmxTracker.strategy - before.balances.feeGmxTracker.strategy
    ensures ConfirmTend(approx, GmxStrategy, before, after) == Pass
  {
  }

  /**
   * While vesting, the GMX the strategy gives up may exceed what the fee
   * tracker gains (part of it backs the vesting), but the tracker may not gain
   * more than was given up.
   */
  lemma VestingTend(approx: ApproxRelation, before: Snapshot, after: Snapshot)
    requires Reflexive(approx)
    requires after.balances.gmxVester.strategy > before.balances.gmxVester.strategy
    requires before.balances.esgmx.strategy - after.balances.esgmx.strategy
             == after.balances.gmxVester.strategy - before.balances.gmxVester.strategy
    ensures ConfirmTend(approx, GmxStrategy, before, after) == Pass
            <==> before.balances.want.strategy - after.balances.want.strategy
                 >= after.balances.feeGmxTracker.strategy - before.balances.feeGmxTracker.strategy
  {
  }

  /** Vesting 50 esGMX while giving up 80 GMX of which only 30 reaches the fee tracker passes. */
  lemma VestingTendExample(approx: ApproxRelation)
    requires Reflexive(approx)
    ensures var before := Vault(0, 0, OneEther, 0)
                            .(balances := NoBalances.(esgmx := NoHoldings.(strategy := 50),
                                                      want := NoHoldings.(strategy := 100)));
            var after := Vault(0, 0, OneEther, 0)
                           .(balances := NoBalances.(gmxVester := NoHoldings.(strategy := 50),
                                                     want := NoHoldings.(strategy := 20),
                                                     feeGmxTracker := NoHoldings.(strategy := 30)));
            ConfirmTend(approx, GmxStrategy, before, after) == Pass
  {
    var before := Vault(0, 0, OneEther, 0)
                    .(balances := NoBalances.(esgmx := NoHoldings.(strategy := 50),
                                              want := NoHoldings.(strategy := 100)));
    var after := Vault(0, 0, OneEther, 0)
                   .(balances := NoBalances.(gmxVester := NoHoldings.(strategy := 50),
                                             want := NoHoldings.(strategy := 20),
                                             feeGmxTracker := NoHoldings.(strategy := 30)));
    VestingTend(approx, before, after);
  }
}
