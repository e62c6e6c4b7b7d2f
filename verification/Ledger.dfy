/**
 * The token ledger that the balance checkers assume: fee-bearing and excluded transfers and
 * capped mints, over accounts that may coincide in any way.
 */
module Ledger {
  import opened Common
  import opened Sums
  import opened Fees

  /** Owners that collect the staking and the treasury leg. */
  datatype Sinks = Sinks(pool: Address, treasury: Address)

  datatype State = State(balances: Balances, totalSupply: nat)

  datatype Op =
    | Transfer(from: Address, to: Address, amount: nat)
    | ExcludedTransfer(from: Address, to: Address, amount: nat)
    | Mint(to: Address, amount: nat)

  predicate Accepted(op: Op, s: State) {
    match op
    case Transfer(from, _, amount) => 0 < amount <= Get(s.balances, from) && BurnOf(amount) <= s.totalSupply
    case ExcludedTransfer(from, _, amount) => 0 < amount <= Get(s.balances, from)
    case Mint(_, amount) => s.totalSupply + amount <= MAX_SUPPLY_NANO
  }

  function Debit(m: Balances, a: Address, v: nat): Balances
    requires v <= Get(m, a)
  {
    m[a := Get(m, a) - v]
  }

  /** A rejected operation changes nothing. */
  function Step(k: Sinks, op: Op, s: State): State {
    if !Accepted(op, s) then s
    else match op
      case Transfer(from, to, amount) =>
        var paid := Debit(s.balances, from, amount);
        var delivered := Credit(paid, to, NetOf(amount));
        var staked := Credit(delivered, k.pool, StakingOf(amount));
        State(Credit(staked, k.treasury, TreasuryOf(amount)), s.totalSupply - BurnOf(amount))
      case ExcludedTransfer(from, to, amount) =>
        s.(balances := Credit(Debit(s.balances, from, amount), to, amount))
      case Mint(to, amount) =>
        State(Credit(s.balances, to, amount), s.totalSupply + amount)
  }

  function Run(k: Sinks, ops: seq<Op>, s: State): State {
    if ops == [] then s else Step(k, ops[|ops| - 1], Run(k, ops[..|ops| - 1], s))
  }

  /** The balances add up to the supply, and the supply respects the cap. */
  ghost predicate Balanced(s: State) {
    Total(s.balances) == s.totalSupply <= MAX_SUPPLY_NANO
  }

  lemma CreditTotal(m: Balances, a: Address, v: nat)
    ensures Total(Credit(m, a, v)) == Total(m) + v
  {
    TotalUpdate(m, a, Get(m, a) + v);
  }

  lemma DebitTotal(m: Balances, a: Address, v: nat)
    requires v <= Get(m, a)
    ensures Total(Debit(m, a, v)) + v == Total(m)
  {
    TotalUpdate(m, a, Get(m, a) - v);
  }

  lemma StepStaysBalanced(k: Sinks, op: Op, s: State)
    requires Balanced(s)
    ensures Balanced(Step(k, op, s))
  {
    if Accepted(op, s) {
      match op
      case Transfer(from, to, amount) =>
        var paid := Debit(s.balances, from, amount);
        var delivered := Credit(paid, to, NetOf(amount));
        var staked := Credit(delivered, k.pool, StakingOf(amount));
        DebitTotal(s.balances, from, amount);
        CreditTotal(paid, to, NetOf(amount));
        CreditTotal(delivered, k.pool, StakingOf(amount));
        CreditTotal(staked, k.treasury, TreasuryOf(amount));
      case ExcludedTransfer(from, to, amount) =>
        DebitTotal(s.balances, from, amount);
        CreditTotal(Debit(s.balances, from, amount), to, amount);
      case Mint(to, amount) =>
        CreditTotal(s.balances, to, amount);
    }
  }

  /** Conservation over every run, whichever accounts coincide. */
  lemma {:induction false} RunStaysBalanced(k: Sinks, ops: seq<Op>, s: State)
    requires Balanced(s)
    ensures Balanced(Run(k, ops, s))
    decreases |ops|
  {
    if ops == [] {
    } else {
      RunStaysBalanced(k, ops[..|ops| - 1], s);
      StepStaysBalanced(k, ops[|ops| - 1], Run(k, ops[..|ops| - 1], s));
    }
  }

  function If(c: bool, v: nat): nat { if c then v else 0 }

  function Delta(k: Sinks, op: Op, s: State, a: Address): int {
    Get(Step(k, op, s).balances, a) - Get(s.balances, a)
  }

  /** What an accepted fee-bearing transfer does to any account, however the four roles coincide. */
  lemma TransferDelta(k: Sinks, op: Op, s: State, a: Address)
    requires op.Transfer? && Accepted(op, s)
    ensures Delta(k, op, s, a) ==
      If(a == op.to, NetOf(op.amount)) + If(a == k.pool, StakingOf(op.amount))
      + If(a == k.treasury, TreasuryOf(op.amount))
      - If(a == op.from, op.amount)
  {
  }

  /**
   * In a balanced ledger a transfer is a question of its amount and the sender's balance: the burn never exceeds the
   * supply.
   */
  lemma TransferAcceptedIff(op: Op, s: State)
    requires op.Transfer? && Balanced(s)
    ensures Accepted(op, s) <==> 0 < op.amount <= Get(s.balances, op.from)
  {
    if op.amount <= Get(s.balances, op.from) {
      DebitTotal(s.balances, op.from, op.amount);
      assert BurnOf(op.amount) <= op.amount;
    }
  }

  /** A transfer between an excluded holder and anybody moves the whole amount, free of fees. */
  lemma ExcludedTransferDelta(k: Sinks, op: Op, s: State, a: Address)
    requires op.ExcludedTransfer?
    ensures Accepted(op, s) <==> 0 < op.amount <= Get(s.balances, op.from)
    ensures Step(k, op, s).totalSupply == s.totalSupply
    ensures Delta(k, op, s, a) ==
      if 0 < op.amount <= Get(s.balances, op.from) then If(a == op.to, op.amount) - If(a == op.from, op.amount) else 0
  {
  }

  /** A mint gives its receiver the whole amount while the cap has room, and otherwise nothing. */
  lemma MintDelta(k: Sinks, op: Op, s: State, a: Address)
    requires op.Mint?
    ensures Step(k, op, s).totalSupply ==
      s.totalSupply + if s.totalSupply + op.amount <= MAX_SUPPLY_NANO then op.amount else 0
    ensures Delta(k, op, s, a) == if s.totalSupply + op.amount <= MAX_SUPPLY_NANO then If(a == op.to, op.amount) else 0
  {
  }

  // ----- The checkers, on the deltas of one operation -----

  predicate CheckTransferOkBalances(recipientDelta: int, senderDelta: int, supplyDelta: int, amount: nat) {
    recipientDelta == NetOf(amount) && senderDelta + amount == 0 && supplyDelta + BurnOf(amount) == 0
  }

  predicate CheckSelfTransferConservation(before: int, after: int, amount: nat) {
    && BurnOf(amount) + StakingOf(amount) + TreasuryOf(amount) + NetOf(amount) == amount
    && after == before - TotalFeeOf(amount)
  }

  /** Fee rates of the jetton master in basis points. */
  datatype Rates = Rates(burn: int, staking: int, treasury: int)

  predicate CheckSupplyAccounting(totalSupply: int, knownBalancesSum: int, rates: Rates) {
    && rates == Rates(BURN_BPS, STAKING_BPS, TREASURY_BPS)
    && BurnOf(NANO) + StakingOf(NANO) + TreasuryOf(NANO) + NetOf(NANO) == NANO
    && 0 <= totalSupply <= MAX_SUPPLY_NANO
    && knownBalancesSum <= totalSupply
  }

  /** No fee leg of this amount flows back to `a`. */
  predicate NoLegTo(k: Sinks, a: Address, amount: nat) {
    (a == k.pool ==> StakingOf(amount) == 0) && (a == k.treasury ==> TreasuryOf(amount) == 0)
  }

  /** The transfer checker passes exactly when the parties differ and collect no leg themselves. */
  lemma TransferCheckIff(k: Sinks, op: Op, s: State)
    requires op.Transfer? && Accepted(op, s)
    ensures CheckTransferOkBalances(Delta(k, op, s, op.to), Delta(k, op, s, op.from),
              Step(k, op, s).totalSupply - s.totalSupply, op.amount)
      <==> op.from != op.to && NoLegTo(k, op.from, op.amount) && NoLegTo(k, op.to, op.amount)
  {
    TransferDelta(k, op, s, op.to);
    TransferDelta(k, op, s, op.from);
    assert NetOf(op.amount) + TotalFeeOf(op.amount) == op.amount;
  }

  /** A self-transfer costs exactly the total fee, unless the holder collects a leg itself. */
  lemma SelfTransferCheckIff(k: Sinks, op: Op, s: State)
    requires op.Transfer? && op.from == op.to && Accepted(op, s)
    ensures var after := Get(Step(k, op, s).balances, op.from);
      CheckSelfTransferConservation(Get(s.balances, op.from), after, op.amount) <==> NoLegTo(k, op.from, op.amount)
  {
    TransferDelta(k, op, s, op.from);
  }

  /** What the supply check asks of its readings: the split of a whole BURN always adds up. */
  lemma SupplyCheckAsks(totalSupply: int, knownBalancesSum: int, rates: Rates)
    ensures CheckSupplyAccounting(totalSupply, knownBalancesSum, rates) <==>
      rates == Rates(50, 30, 20) && 0 <= totalSupply <= 1_000_000_000_000 && knownBalancesSum <= totalSupply
  {
  }

  /**
   * After any run the supply check on any distinct known holders passes exactly when the rates are the expected ones.
   */
  lemma SupplyCheckIff(k: Sinks, ops: seq<Op>, s: State, holders: seq<Address>, rates: Rates)
    requires Balanced(s) && Distinct(holders)
    ensures CheckSupplyAccounting(Run(k, ops, s).totalSupply, SumOver(Run(k, ops, s).balances, holders), rates)
      <==> rates == Rates(BURN_BPS, STAKING_BPS, TREASURY_BPS)
  {
    RunStaysBalanced(k, ops, s);
    SumOverAtMostTotal(Run(k, ops, s).balances, holders);
  }
}
