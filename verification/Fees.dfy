/** The fee split of a transfer: three floored legs in basis points, and the rest. */
module Fees {

  const BURN_BPS: nat := 50
  const STAKING_BPS: nat := 30
  const TREASURY_BPS: nat := 20
  const BPS: nat := 10000

  function BurnOf(amount: nat): nat { amount * BURN_BPS / BPS }
  function StakingOf(amount: nat): nat { amount * STAKING_BPS / BPS }
  function TreasuryOf(amount: nat): nat { amount * TREASURY_BPS / BPS }

  function TotalFeeOf(amount: nat): nat {
    BurnOf(amount) + StakingOf(amount) + TreasuryOf(amount)
  }

  function NetOf(amount: nat): (net: nat)
    ensures net + TotalFeeOf(amount) == amount
  {
    amount - BurnOf(amount) - StakingOf(amount) - TreasuryOf(amount)
  }

  /** Net the history sampler expects: one floored leg of 1%. */
  function SampledNet(amount: nat): int { amount - amount * 100 / BPS }

  /** The funding script's delivery test for a jetton leg. */
  predicate BurnDelivered(before: int, after: int, amount: nat) {
    after - before >= amount * 99 / 100
  }

  function Sum(amounts: seq<nat>): nat {
    if amounts == [] then 0 else Sum(amounts[..|amounts| - 1]) + amounts[|amounts| - 1]
  }

  function SumOfFees(amounts: seq<nat>): nat {
    if amounts == [] then 0 else SumOfFees(amounts[..|amounts| - 1]) + TotalFeeOf(amounts[|amounts| - 1])
  }

  /** The legs are 0.5%, 0.3% and 0.2% of the amount, each to the whole nano below, and the net is the rest. */
  lemma LegsAreFloors(amount: nat)
    ensures 1000 * BurnOf(amount) <= 5 * amount < 1000 * (BurnOf(amount) + 1)
    ensures 1000 * StakingOf(amount) <= 3 * amount < 1000 * (StakingOf(amount) + 1)
    ensures 1000 * TreasuryOf(amount) <= 2 * amount < 1000 * (TreasuryOf(amount) + 1)
    ensures NetOf(amount) == amount - BurnOf(amount) - StakingOf(amount) - TreasuryOf(amount)
  {
  }

  /** One floored leg loses at most one nano when two amounts are split. */
  lemma LegOfSum(a: nat, b: nat, bps: nat)
    ensures a * bps / BPS + b * bps / BPS <= (a + b) * bps / BPS <= a * bps / BPS + b * bps / BPS + 1
  {
    var x, y := a * bps, b * bps;
    assert (a + b) * bps == x + y;
    FloorOfSum(x, y);
  }

  lemma FloorOfSum(x: nat, y: nat)
    ensures x / BPS + y / BPS <= (x + y) / BPS <= x / BPS + y / BPS + 1
  {
  }

  /** Paying in pieces costs at most the fee of the whole, and saves at most three nano per cut. */
  lemma {:induction false} FeeOfPieces(amounts: seq<nat>)
    requires amounts != []
    ensures SumOfFees(amounts) <= TotalFeeOf(Sum(amounts)) <= SumOfFees(amounts) + 3 * (|amounts| - 1)
    decreases |amounts|
  {
    var n := |amounts| - 1;
    var init, last := amounts[..n], amounts[n];
    if n == 0 {
      assert init == [] && Sum(init) == 0 && SumOfFees(init) == 0;
    } else {
      FeeOfPieces(init);
      LegOfSum(Sum(init), last, BURN_BPS);
      LegOfSum(Sum(init), last, STAKING_BPS);
      LegOfSum(Sum(init), last, TREASURY_BPS);
    }
  }

  /** The bound is reached: up to 200 pieces of 999 nano save exactly three nano per cut. */
  lemma SavingsBoundIsReached(n: nat)
    requires 1 <= n <= 200
    ensures TotalFeeOf(999 * n) == SumOfFees(seq(n, _ => 999)) + 3 * (n - 1) && Sum(seq(n, _ => 999)) == 999 * n
  {
    SumsOfEqual(n, 999);
    assert TotalFeeOf(999) == 7;
    assert BurnOf(999 * n) == 5 * n - 1;
    assert StakingOf(999 * n) == 3 * n - 1;
    assert TreasuryOf(999 * n) == 2 * n - 1;
  }

  lemma {:induction false} SumsOfEqual(n: nat, amount: nat)
    ensures Sum(seq(n, _ => amount)) == amount * n && SumOfFees(seq(n, _ => amount)) == TotalFeeOf(amount) * n
  {
    if n > 0 {
      var s := seq(n, _ => amount);
      assert s[..n - 1] == seq(n - 1, _ => amount);
      SumsOfEqual(n - 1, amount);
    } else {
      assert seq(n, _ => amount) == [];
    }
  }

  /** The fee of `1000 q + r` is ten nano per thousand plus the fee of the remainder. */
  lemma FeeByThousands(q: nat, r: nat)
    ensures TotalFeeOf(1000 * q + r) == 10 * q + TotalFeeOf(r)
  {
    assert BurnOf(1000 * q + r) == 5 * q + BurnOf(r);
    assert StakingOf(1000 * q + r) == 3 * q + StakingOf(r);
    assert TreasuryOf(1000 * q + r) == 2 * q + TreasuryOf(r);
  }

  /**
   * The split net lies 0 to 2 nano above the sampler's, by an amount that depends on the
   * last three digits alone; on whole thousands the two agree. Both bounds are reached.
   */
  lemma NetVersusSampled(amount: nat)
    ensures SampledNet(amount) <= NetOf(amount) <= SampledNet(amount) + 2
    ensures NetOf(amount) - SampledNet(amount) == amount % 1000 / 100 - TotalFeeOf(amount % 1000)
    ensures amount % 1000 == 0 ==> NetOf(amount) == SampledNet(amount)
    ensures NetOf(1) == SampledNet(1) && NetOf(300) == SampledNet(300) + 2
  {
    var q, r := amount / 1000, amount % 1000;
    assert amount == 1000 * q + r;
    FeeByThousands(q, r);
    assert amount * 100 / BPS == 10 * q + r / 100;
  }

  /** A credited net always passes the delivery test, which asks for 99% of the amount to the whole nano below. */
  lemma NetPassesDelivery(before: int, after: int, amount: nat)
    ensures BurnDelivered(before, before + NetOf(amount), amount)
    ensures BurnDelivered(before, after, amount) <==> 100 * (after - before) > 99 * amount - 100
  {
    NetVersusSampled(amount);
  }
}
