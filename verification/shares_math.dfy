/**
 * The share/fee arithmetic of helpers/shares_math.py: conversions between the
 * vault's deposit token ("want") and its shares, withdrawal, performance and
 * management fees, and the share issuance of one harvest report.  Every
 * division is Python's floor division, so every amount is an `int`: a harvest
 * may report a negative gain, and the fee formulas then floor below zero.
 */
module SharesMath {
  import opened IntMath

  const MaxBps: int := 10_000
  const SecsPerYear: int := 31_556_952

  /** from_want_to_shares: shares minted for `want` at the rate supply/balance. */
  function WantToShares(want: int, totalSupply: int, balance: int): (shares: int)
    requires balance != 0
    ensures balance > 0 ==> balance * shares <= want * totalSupply < balance * shares + balance
    ensures balance < 0 ==> balance * shares >= want * totalSupply > balance * shares + balance
    ensures want == 0 || totalSupply == 0 ==> shares == 0
  {
    FloorDiv(want * totalSupply, balance)
  }

  /** from_shares_to_want: want redeemed by `shares` at price-per-full-share `ppfs`. */
  function SharesToWant(shares: int, ppfs: int, decimals: nat): (want: int)
    ensures Pow10(decimals) * want <= shares * ppfs < Pow10(decimals) * want + Pow10(decimals)
    ensures shares >= 0 && ppfs >= 0 ==> want >= 0
  {
    if shares >= 0 && ppfs >= 0 then
      MulLeft(0, ppfs, shares);
      FloorDivMonotone(0, shares * ppfs, Pow10(decimals));
      FloorDiv(shares * ppfs, Pow10(decimals))
    else
      FloorDiv(shares * ppfs, Pow10(decimals))
  }

  /** Redeemed want never decreases with more shares or a higher price. */
  lemma {:induction false} SharesToWantMonotone(s1: int, s2: int, p1: int, p2: int, decimals: nat)
    requires 0 <= s1 <= s2 && 0 <= p1 <= p2
    ensures SharesToWant(s1, p1, decimals) <= SharesToWant(s2, p2, decimals)
  {
    MulLeft(p1, p2, s1);
    MulLeft(s1, s2, p2);
    FloorDivMonotone(s1 * p1, s2 * p2, Pow10(decimals));
  }

  /** `value * bps // MAX_BPS`, the basis-point share of `value`. */
  function ApplyBps(value: int, bps: int): (fee: int)
    ensures MaxBps * fee <= value * bps < MaxBps * fee + MaxBps
    ensures value == 0 || bps == 0 ==> fee == 0
    ensures value >= 0 && 0 <= bps <= MaxBps ==> 0 <= fee <= value
  {
    var fee := FloorDiv(value * bps, MaxBps);
    if value >= 0 && 0 <= bps <= MaxBps then
      MulLeft(bps, MaxBps, value);
      MulCancelLt(fee, value + 1, MaxBps);
      fee
    else
      fee
  }

  /** get_withdrawal_fees_in_want: the fee on the gross want a burn redeems. */
  function WithdrawalFeeInWant(shares: int, ppfs: int, decimals: nat, bps: int): (fee: int)
    ensures MaxBps * fee <= SharesToWant(shares, ppfs, decimals) * bps < MaxBps * fee + MaxBps
    ensures bps == 0 ==> fee == 0
    ensures shares >= 0 && ppfs >= 0 && 0 <= bps <= MaxBps ==>
              0 <= fee <= SharesToWant(shares, ppfs, decimals)
  {
    var value := FloorDiv(shares * ppfs, Pow10(decimals));
    ApplyBps(value, bps)
  }

  /**
   * get_withdrawal_fees_in_shares: the fee in want, issued as shares at the
   * pre-withdrawal supply and balance (as if the fee were redeposited).
   */
  function WithdrawalFeeInShares(shares: int, ppfs: int, decimals: nat, bps: int,
                                 supplyBefore: int, balanceBefore: int): (fee: int)
    requires balanceBefore != 0
    ensures fee == WantToShares(WithdrawalFeeInWant(shares, ppfs, decimals, bps), supplyBefore, balanceBefore)
    ensures bps == 0 ==> fee == 0
  {
    var feeInWant := WithdrawalFeeInWant(shares, ppfs, decimals, bps);
    FloorDiv(feeInWant * supplyBefore, balanceBefore)
  }

  /** get_performance_fees_want */
  function PerformanceFeeWant(gain: int, bps: int): (fee: int)
    ensures MaxBps * fee <= gain * bps < MaxBps * fee + MaxBps
    ensures gain == 0 || bps == 0 ==> fee == 0
    ensures gain >= 0 && 0 <= bps <= MaxBps ==> 0 <= fee <= gain
  {
    ApplyBps(gain, bps)
  }

  /** get_management_fees_want: a yearly rate in bps, pro rata over `elapsed` seconds. */
  function ManagementFeeWant(assets: int, elapsed: int, bps: int): (fee: int)
    ensures bps == 0 || assets == 0 || elapsed == 0 ==> fee == 0
  {
    FloorDiv(FloorDiv(bps * assets * elapsed, SecsPerYear), MaxBps)
  }

  /** The double floor `// SECS_PER_YEAR // MAX_BPS` is one floor by their product. */
  lemma ManagementFeeSingleFloor(assets: int, elapsed: int, bps: int)
    ensures ManagementFeeWant(assets, elapsed, bps) == FloorDiv(bps * assets * elapsed, SecsPerYear * MaxBps)
    ensures bps >= 0 && assets >= 0 && elapsed >= 0 ==> ManagementFeeWant(assets, elapsed, bps) >= 0
  {
    FloorDivNested(bps * assets * elapsed, SecsPerYear, MaxBps);
    if bps >= 0 && assets >= 0 && elapsed >= 0 {
      MulLeft(0, bps * assets, elapsed);
      FloorDivMonotone(0, bps * assets * elapsed, SecsPerYear * MaxBps);
    }
  }

  /**
   * Round trip want -> shares -> want at the exact price `ppfs` with
   * `ppfs * S == B * 10^d`: the trip never gains, and it loses less than
   * `B/S + 1`, i.e. less than one want unit plus one share's worth of want.
   */
  lemma {:induction false} RoundTripLoss(x: int, supply: int, balance: int, ppfs: int, decimals: nat)
    requires x >= 0 && supply > 0 && balance > 0
    requires ppfs * supply == balance * Pow10(decimals)
    ensures var back := SharesToWant(WantToShares(x, supply, balance), ppfs, decimals);
            back <= x && (x - back) * supply < supply + balance
  {
    var shares := WantToShares(x, supply, balance);
    var back := SharesToWant(shares, ppfs, decimals);
    RoundTripBounds(x, supply, balance, ppfs, Pow10(decimals), shares, back);
  }

  /** The arithmetic of RoundTripLoss, over the two floors' defining bounds. */
  lemma RoundTripBounds(x: int, supply: int, balance: int, ppfs: int, p: int, shares: int, back: int)
    requires supply > 0 && balance > 0 && p > 0
    requires ppfs * supply == balance * p
    requires balance * shares <= x * supply < balance * shares + balance
    requires p * back <= shares * ppfs < p * back + p
    ensures back <= x && (x - back) * supply < supply + balance
  {
    // scale the second floor's bounds by the supply
    MulLeft(p * back, shares * ppfs, supply);
    MulLeft(shares * ppfs, p * back + p - 1, supply);
    assert supply * (shares * ppfs) == p * (shares * balance) by {
      assert supply * (shares * ppfs) == shares * (ppfs * supply);
    }
    assert supply * (p * back) == p * (back * supply);
    assert supply * (p * back + p - 1) < p * ((back + 1) * supply);
    MulCancelLe(back * supply, shares * balance, p);
    MulCancelLt(shares * balance, (back + 1) * supply, p);
    // and compare with the first floor's bounds
    MulCancelLe(back, x, supply);
    assert (x - back) * supply == x * supply - back * supply;
  }

  /** When the price is at most one (B <= S), the round trip loses at most one unit. */
  lemma RoundTripWithinOne(x: int, supply: int, balance: int, ppfs: int, decimals: nat)
    requires x >= 0 && 0 < balance <= supply
    requires ppfs * supply == balance * Pow10(decimals)
    ensures var back := SharesToWant(WantToShares(x, supply, balance), ppfs, decimals);
            x - 1 <= back <= x
  {
    RoundTripLoss(x, supply, balance, ppfs, decimals);
    var back := SharesToWant(WantToShares(x, supply, balance), ppfs, decimals);
    MulCancelLt(x - back, 2, supply);
  }

  /**
   * get_performance_fees_shares, the legacy estimate: one performance fee,
   * with the pool net of twice that fee ("fees are 50/50").
   */
  function LegacyPerformanceFeeShares(gain: int, bps: int, supplyBefore: int, balanceBefore: int): (shares: int)
    requires balanceBefore + gain - 2 * PerformanceFeeWant(gain, bps) != 0
    ensures shares == WantToShares(PerformanceFeeWant(gain, bps), supplyBefore,
                                   balanceBefore + gain - 2 * PerformanceFeeWant(gain, bps))
    ensures gain == 0 || bps == 0 || supplyBefore == 0 ==> shares == 0
  {
    var feeInWant := PerformanceFeeWant(gain, bps);
    var balanceAtHarvest := balanceBefore + gain - feeInWant * 2;
    WantToShares(feeInWant, supplyBefore, balanceAtHarvest)
  }

  // ---------------------------------------------------------------------
  // get_report_fees

  /** The three shares issuances of one harvest report. */
  datatype FeeReport = FeeReport(sharesPerfTreasury: int, sharesManagement: int, sharesPerfStrategist: int)

  /** The three fees of one report, in want. */
  datatype FeeWants = FeeWants(treasury: int, management: int, strategist: int)

  /** The running total supply and pool while the report's shares are issued. */
  datatype Ledger = Ledger(supply: int, pool: int)

  function ReportFeeWants(gain: int, perfTreasuryBps: int, perfStrategistBps: int,
                          managementBps: int, elapsed: int, balanceBefore: int): FeeWants
  {
    FeeWants(PerformanceFeeWant(gain, perfTreasuryBps),
             ManagementFeeWant(balanceBefore, elapsed, managementBps),
             PerformanceFeeWant(gain, perfStrategistBps))
  }

  /** The pool the first issuance is priced against: balance plus gain, net of all three fees. */
  function ReportPool(gain: int, balanceBefore: int, w: FeeWants): int
  {
    balanceBefore + gain - w.treasury - w.management - w.strategist
  }

  /** Issue shares for `feeWant` at the ledger's rate, then add both to the ledger. */
  function Issue(l: Ledger, feeWant: int): (int, Ledger)
    requires l.pool != 0
  {
    var shares := WantToShares(feeWant, l.supply, l.pool);
    (shares, Ledger(l.supply + shares, l.pool + feeWant))
  }

  /** None of the three issuances divides by zero. */
  predicate ReportFeesDefined(gain: int, perfTreasuryBps: int, perfStrategistBps: int,
                              managementBps: int, elapsed: int, supplyBefore: int, balanceBefore: int)
  {
    var w := ReportFeeWants(gain, perfTreasuryBps, perfStrategistBps, managementBps, elapsed, balanceBefore);
    var pool := ReportPool(gain, balanceBefore, w);
    pool != 0 && pool + w.treasury != 0 && pool + w.treasury + w.management != 0
  }

  /**
   * Shares issued at harvest, in the fixed order treasury performance fee,
   * management fee, strategist performance fee, each issuance priced against
   * the supply and pool left by the ones before it.
   */
  function ReportFees(gain: int, perfTreasuryBps: int, perfStrategistBps: int,
                      managementBps: int, elapsed: int, supplyBefore: int, balanceBefore: int): (r: FeeReport)
    requires ReportFeesDefined(gain, perfTreasuryBps, perfStrategistBps, managementBps, elapsed, supplyBefore, balanceBefore)
    ensures var w := ReportFeeWants(gain, perfTreasuryBps, perfStrategistBps, managementBps, elapsed, balanceBefore);
            var p := balanceBefore + gain - w.treasury - w.management - w.strategist;
            && r.sharesPerfTreasury == WantToShares(w.treasury, supplyBefore, p)
            && r.sharesManagement == WantToShares(w.management, supplyBefore + r.sharesPerfTreasury, p + w.treasury)
            && r.sharesPerfStrategist == WantToShares(w.strategist, supplyBefore + r.sharesPerfTreasury + r.sharesManagement,
                                                      p + w.treasury + w.management)
    ensures gain == 0 ==> r.sharesPerfTreasury == 0 && r.sharesPerfStrategist == 0
    ensures perfTreasuryBps == 0 ==> r.sharesPerfTreasury == 0
    ensures managementBps == 0 ==> r.sharesManagement == 0
    ensures perfStrategistBps == 0 ==> r.sharesPerfStrategist == 0
  {
    var w := ReportFeeWants(gain, perfTreasuryBps, perfStrategistBps, managementBps, elapsed, balanceBefore);
    var start := Ledger(supplyBefore, ReportPool(gain, balanceBefore, w));
    var (treasury, afterTreasury) := Issue(start, w.treasury);
    var (management, afterManagement) := Issue(afterTreasury, w.management);
    var (strategist, _) := Issue(afterManagement, w.strategist);
    FeeReport(treasury, management, strategist)
  }

  /**
   * The legacy estimate is the treasury issuance of the three-step report
   * when the strategist's fee equals the treasury's and there is no
   * management fee: that is its "50/50" assumption.
   */
  lemma LegacyIsEvenSplitTreasuryShares(gain: int, bps: int, elapsed: int, supplyBefore: int, balanceBefore: int)
    requires ReportFeesDefined(gain, bps, bps, 0, elapsed, supplyBefore, balanceBefore)
    ensures balanceBefore + gain - 2 * PerformanceFeeWant(gain, bps) != 0
    ensures LegacyPerformanceFeeShares(gain, bps, supplyBefore, balanceBefore)
            == ReportFees(gain, bps, bps, 0, elapsed, supplyBefore, balanceBefore).sharesPerfTreasury
  {
  }

  /**
   * An issuance at the floored rate never makes later issuances more
   * generous: after it, the same want buys at most as many shares.
   */
  lemma IssueNeverRaisesRate(l: Ledger, feeWant: int, want: int)
    requires l.pool > 0 && l.supply >= 0 && feeWant >= 0 && want >= 0
    ensures var (_, next) := Issue(l, feeWant);
            WantToShares(want, next.supply, next.pool) <= WantToShares(want, l.supply, l.pool)
  {
    var (issued, next) := Issue(l, feeWant);
    RateBounds(l.supply, l.pool, feeWant, issued, want,
               WantToShares(want, next.supply, next.pool), WantToShares(want, l.supply, l.pool));
  }

  /** The arithmetic of IssueNeverRaisesRate, over the floors' defining bounds. */
  lemma RateBounds(s: int, p: int, f: int, t: int, w: int, q: int, q0: int)
    requires p > 0 && f >= 0 && w >= 0
    requires t * p <= f * s
    requires q * (p + f) <= w * (s + t)
    requires q0 * p <= w * s < (q0 + 1) * p
    ensures q <= q0
  {
    assert (s + t) * p <= s * (p + f);
    MulLeft(q * (p + f), w * (s + t), p);
    MulLeft((s + t) * p, s * (p + f), w);
    assert (p + f) * (q * p) <= (p + f) * (w * s) by {
      assert p * (q * (p + f)) == (p + f) * (q * p);
      assert p * (w * (s + t)) == w * ((s + t) * p);
      assert w * (s * (p + f)) == (p + f) * (w * s);
    }
    MulCancelLe(q * p, w * s, p + f);
    if q > q0 {
      MulLeft(q0 + 1, q, p);
    }
  }
}
