/**
 * The GMX staking strategy's resolver (_setup/StrategyResolver.py): the
 * checks it adds after earn and harvest, and its tend verifier.
 */
module StrategyResolver {
  import opened Assertions
  import opened Snapshots

  /**
   * After earn: the want that left the vault was staked, so the strategy's
   * fee-GMX tracker balance and its staked-GMX tracker deposit both rose by
   * exactly that amount.
   */
  function GmxHookAfterEarn(before: Snapshot, after: Snapshot): (o: Outcome)
    ensures o == Pass <==>
              && after.balances.want.sett < before.balances.want.sett
              && after.balances.feeGmxTracker.strategy - before.balances.feeGmxTracker.strategy
                 == before.balances.want.sett - after.balances.want.sett
              && after.depositBalances.sgTracker - before.depositBalances.sgTracker
                 == before.balances.want.sett - after.balances.want.sett
    ensures o != Pass ==> o == Raised(AssertionError)
  {
    var fTrackerChange := after.balances.feeGmxTracker.strategy - before.balances.feeGmxTracker.strategy;
    var wantSettChange := before.balances.want.sett - after.balances.want.sett;
    :- Check(fTrackerChange > 0);
    :- Check(fTrackerChange == wantSettChange);
    var depositSgTrackerChange := after.depositBalances.sgTracker - before.depositBalances.sgTracker;
    Check(depositSgTrackerChange == fTrackerChange)
  }

  /** After harvest: the strategy lost none of its weth, esGMX or GMX (want). */
  function GmxHookAfterHarvest(before: Snapshot, after: Snapshot): (o: Outcome)
    ensures o == Pass <==>
              && before.balances.weth.strategy <= after.balances.weth.strategy
              && before.balances.esgmx.strategy <= after.balances.esgmx.strategy
              && before.balances.want.strategy <= after.balances.want.strategy
    ensures o != Pass ==> o == Raised(AssertionError)
  {
    var wethKept := after.balances.weth.strategy >= before.balances.weth.strategy;
    :- Check(wethKept);
    :- Check(after.balances.esgmx.strategy >= before.balances.esgmx.strategy);
    Check(after.balances.want.strategy >= before.balances.want.strategy)
  }

  /**
   * Tend vests esGMX and stakes GMX.  The esGMX the strategy gave up must
   * reappear (approximately) in the vester.  The GMX it gave up must
   * reappear (approximately) in the fee-GMX tracker when nothing was vested,
   * may partly go elsewhere when something was vested, and is not checked
   * when the vester balance fell.
   */
  function GmxConfirmTend(approx: ApproxRelation, before: Snapshot, after: Snapshot): (o: Outcome)
    ensures var esgmxChange := before.balances.esgmx.strategy - after.balances.esgmx.strategy;
            var vesterChange := after.balances.gmxVester.strategy - before.balances.gmxVester.strategy;
            var gmxChange := before.balances.want.strategy - after.balances.want.strategy;
            var fTrackerChange := after.balances.feeGmxTracker.strategy - before.balances.feeGmxTracker.strategy;
            && (vesterChange == 0 ==> (o == Pass <==> approx(esgmxChange as real, 0.0, 1) && approx(gmxChange as real, fTrackerChange as real, 1)))
            && (vesterChange > 0 ==> (o == Pass <==> approx(esgmxChange as real, vesterChange as real, 1) && gmxChange >= fTrackerChange))
            && (vesterChange < 0 ==> (o == Pass <==> approx(esgmxChange as real, vesterChange as real, 1)))
    ensures o != Pass ==> o == Raised(AssertionError)
  {
    var esgmxChange := before.balances.esgmx.strategy - after.balances.esgmx.strategy;
    var vesterChange := after.balances.gmxVester.strategy - before.balances.gmxVester.strategy;
    :- Check(approx(esgmxChange as real, vesterChange as real, 1));
    var gmxChange := before.balances.want.strategy - after.balances.want.strategy;
    var fTrackerChange := after.balances.feeGmxTracker.strategy - before.balances.feeGmxTracker.strategy;
    :- Check(vesterChange != 0 || approx(gmxChange as real, fTrackerChange as real, 1));
    Check(vesterChange <= 0 || gmxChange >= fTrackerChange)
  }
}
