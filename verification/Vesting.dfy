/**
 * The vesting schedule and the vault that pays it out: claims, emergency revoke, and the jetton
 * transfers that are delivered or bounce later.
 */
module Vesting {
  import opened Common
  import opened Sums

  const RELEASE_TON: nat := 3_500_000_000

  datatype Schedule = Schedule(total: nat, start: nat, cliff: nat, vesting: nat)

  datatype ScheduleError = CliffAfterVesting | EmptyLinearWindow

  function VestedAmountAt(s: Schedule, now: int): Result<int, ScheduleError> {
    if s.cliff > s.vesting then Err(CliffAfterVesting)
    else if now < s.start + s.cliff then Ok(0)
    else if now >= s.start + s.vesting then Ok(s.total)
    else
      var elapsed := now - s.start - s.cliff;
      var linearWindow := s.vesting - s.cliff;
      if linearWindow <= 0 then Err(EmptyLinearWindow)
      else Ok(s.total * elapsed / linearWindow)
  }

  function ReleasableAmountAt(s: Schedule, released: int, now: int): Result<nat, ScheduleError> {
    match VestedAmountAt(s, now)
    case Ok(vested) => Ok(if vested > released then vested - released else 0)
    case Err(e) => Err(e)
  }

  function Vested(s: Schedule, now: int): nat
    requires s.cliff <= s.vesting
  {
    assert s.start + s.cliff <= now < s.start + s.vesting ==> 0 <= s.total * (now - s.start - s.cliff);
    VestedAmountAt(s, now).value
  }

  lemma QuotientMonotone(total: nat, e1: nat, e2: nat, w: nat)
    requires 0 < w && e1 <= e2
    ensures total * e1 / w <= total * e2 / w
  {
    assert total * e1 <= total * e2;
    QuotientOrdered(total * e1, total * e2, w);
  }

  lemma QuotientOrdered(x: nat, y: nat, w: nat)
    requires 0 < w && x <= y
    ensures x / w <= y / w
  {
    var a, b := x / w, y / w;
    assert y < w * b + w && w * a <= x;
    assert a > b ==> w * a >= w * (b + 1);
  }

  lemma QuotientAtMost(total: nat, e: nat, w: nat)
    requires 0 < w && e <= w
    ensures total * e / w <= total
  {
    QuotientMonotone(total, e, w, w);
    assert total * w / w == total by { MultipleOver(total, w); }
  }

  lemma MultipleOver(x: nat, w: nat)
    requires 0 < w
    ensures x * w / w == x
  {
    var q := x * w / w;
    assert q * w <= x * w < (q + 1) * w;
    assert q < x ==> (q + 1) * w <= x * w;
    assert q > x ==> q * w >= (x + 1) * w;
  }

  /** The vested amount stays within the allocation and never decreases as time passes. */
  lemma VestedMonotoneAndBounded(s: Schedule, t1: int, t2: int)
    requires s.cliff <= s.vesting && t1 <= t2
    ensures 0 <= Vested(s, t1) <= Vested(s, t2) <= s.total
  {
    var w := s.vesting - s.cliff;
    var open, close := s.start + s.cliff, s.start + s.vesting;
    if open <= t2 < close {
      QuotientAtMost(s.total, t2 - s.start - s.cliff, w);
      if open <= t1 {
        QuotientMonotone(s.total, t1 - s.start - s.cliff, t2 - s.start - s.cliff, w);
      }
    } else if open <= t1 < close {
      QuotientAtMost(s.total, t1 - s.start - s.cliff, w);
    }
  }

  lemma QuotientIsFloor(x: nat, w: nat)
    requires 0 < w
    ensures var v := x / w; v * w <= x < (v + 1) * w
  {
  }

  /**
   * The schedule: nothing before the cliff, everything from the end on, and in between the whole nano below the linear
   * share of the total. A cliff beyond the end is the only error.
   */
  lemma VestedIsLinear(s: Schedule, now: int)
    ensures VestedAmountAt(s, now).Err? <==> s.cliff > s.vesting
    ensures s.cliff <= s.vesting ==>
      var v, e, w := Vested(s, now), now - s.start - s.cliff, s.vesting - s.cliff;
      && (e < 0 ==> v == 0)
      && (e >= w ==> v == s.total)
      && (0 <= e < w ==> v * w <= s.total * e < (v + 1) * w)
  {
    var e, w := now - s.start - s.cliff, s.vesting - s.cliff;
    if 0 <= e < w { QuotientIsFloor(s.total * e, w); }
  }

  // ----- The vault -----

  datatype Transfer = Transfer(toTreasury: bool, amount: nat)

  /** `held` is the vault's jetton balance; `inflight` the transfers not yet delivered or bounced. */
  datatype Vault = Vault(released: nat, inflight: seq<Transfer>, held: nat, paidBeneficiary: nat, paidTreasury: nat)

  datatype Action =
    | Claim(byBeneficiary: bool, now: int)
    | Revoke(byTimelock: bool, attached: nat)
    | Deliver(i: nat)
    | Bounce(i: nat)

  function Funded(amount: nat): Vault { Vault(0, [], amount, 0, 0) }

  predicate Accepted(s: Schedule, a: Action, v: Vault) {
    match a
    case Claim(byBeneficiary, now) =>
      byBeneficiary && ReleasableAmountAt(s, v.released, now).Ok? && ReleasableAmountAt(s, v.released, now).value > 0
    case Revoke(byTimelock, attached) => byTimelock && attached >= RELEASE_TON && s.total > v.released
    case Deliver(i) => i < |v.inflight| && v.inflight[i].amount <= v.held
    case Bounce(i) => i < |v.inflight| && v.inflight[i].amount <= v.released
  }

  /** One handler; what it refuses changes nothing. */
  function Step(s: Schedule, a: Action, v: Vault): Vault {
    if !Accepted(s, a, v) then v
    else match a
      case Claim(_, now) =>
        var amount := ReleasableAmountAt(s, v.released, now).value;
        v.(released := v.released + amount, inflight := v.inflight + [Transfer(false, amount)])
      case Revoke(_, _) =>
        v.(released := s.total, inflight := v.inflight + [Transfer(true, s.total - v.released)])
      case Deliver(i) =>
        var t := v.inflight[i];
        var rest := v.(inflight := RemoveAt(v.inflight, i), held := v.held - t.amount);
        if t.toTreasury then rest.(paidTreasury := v.paidTreasury + t.amount)
        else rest.(paidBeneficiary := v.paidBeneficiary + t.amount)
      case Bounce(i) =>
        v.(inflight := RemoveAt(v.inflight, i), released := v.released - v.inflight[i].amount)
  }

  function Run(s: Schedule, actions: seq<Action>, v: Vault): Vault {
    if actions == [] then v else Step(s, actions[|actions| - 1], Run(s, actions[..|actions| - 1], v))
  }

  function AmountOf(): Transfer -> nat { (t: Transfer) => t.amount }

  function Amounts(ts: seq<Transfer>): nat { SumBy(AmountOf(), ts) }

  /** Everything released was paid or is on its way; nothing is created; no more than the total leaves. */
  ghost predicate Accounted(s: Schedule, deposit: nat, v: Vault) {
    && v.released == v.paidBeneficiary + v.paidTreasury + Amounts(v.inflight)
    && v.held + v.paidBeneficiary + v.paidTreasury == deposit
    && v.released <= s.total
  }

  lemma StepStaysAccounted(s: Schedule, deposit: nat, a: Action, v: Vault)
    requires Accounted(s, deposit, v)
    ensures Accounted(s, deposit, Step(s, a, v))
  {
    if Accepted(s, a, v) {
      match a
      case Claim(_, now) =>
        VestedMonotoneAndBounded(s, now, now);
        SumByAppend(AmountOf(), v.inflight, Transfer(false, ReleasableAmountAt(s, v.released, now).value));
      case Revoke(_, _) =>
        SumByAppend(AmountOf(), v.inflight, Transfer(true, s.total - v.released));
      case Deliver(i) => SumByRemoveAt(AmountOf(), v.inflight, i);
      case Bounce(i) => SumByRemoveAt(AmountOf(), v.inflight, i);
    }
  }

  /** Conservation over every run of claims, revokes, deliveries and bounces by anyone. */
  lemma {:induction false} RunStaysAccounted(s: Schedule, deposit: nat, actions: seq<Action>)
    ensures Accounted(s, deposit, Run(s, actions, Funded(deposit)))
  {
    if actions == [] {
    } else {
      RunStaysAccounted(s, deposit, actions[..|actions| - 1]);
      StepStaysAccounted(s, deposit, actions[|actions| - 1], Run(s, actions[..|actions| - 1], Funded(deposit)));
    }
  }

  /** A vault that was given its whole allocation covers every transfer on its way, and no bounce is unexpected. */
  lemma FundedVaultAlwaysPays(s: Schedule, deposit: nat, actions: seq<Action>, i: nat)
    requires s.total <= deposit
    requires i < |Run(s, actions, Funded(deposit)).inflight|
    ensures var v := Run(s, actions, Funded(deposit));
      Accepted(s, Deliver(i), v) && Accepted(s, Bounce(i), v)
  {
    RunStaysAccounted(s, deposit, actions);
    SumByRemoveAt(AmountOf(), Run(s, actions, Funded(deposit)).inflight, i);
  }

  /** The bounce of the transfer just sent undoes the claim or the revoke that sent it. */
  lemma BounceUndoes(s: Schedule, a: Action, v: Vault)
    requires (a.Claim? || a.Revoke?) && Accepted(s, a, v)
    ensures Step(s, Bounce(|v.inflight|), Step(s, a, v)) == v
  {
    var sent := Step(s, a, v);
    assert RemoveAt(sent.inflight, |v.inflight|) == v.inflight;
  }

  /** A claim pays the beneficiary what has vested beyond what was released; anything else it refuses. */
  lemma ClaimEffect(s: Schedule, deposit: nat, v: Vault, byBeneficiary: bool, now: int)
    requires Accounted(s, deposit, v) && s.cliff <= s.vesting
    ensures Step(s, Claim(byBeneficiary, now), v) ==
      if byBeneficiary && Vested(s, now) > v.released
      then v.(released := Vested(s, now), inflight := v.inflight + [Transfer(false, Vested(s, now) - v.released)])
      else v
  {
    VestedMonotoneAndBounded(s, now, now);
  }

  /** A revoke by the timelock with 3.5 TON sends the treasury all that is not released; anything else is refused. */
  lemma RevokeEffect(s: Schedule, deposit: nat, v: Vault, byTimelock: bool, attached: nat)
    requires Accounted(s, deposit, v)
    ensures Step(s, Revoke(byTimelock, attached), v) ==
      if byTimelock && attached >= 3_500_000_000 && v.released < s.total
      then v.(released := s.total, inflight := v.inflight + [Transfer(true, s.total - v.released)])
      else v
  {
  }

  // ----- Path independence -----

  /** Claims no later than `t`, deliveries and bounces; no revoke. */
  ghost predicate ClaimsUntil(actions: seq<Action>, t: int) {
    forall a <- actions :: !a.Revoke? && (a.Claim? ==> a.now <= t)
  }

  lemma {:induction false} ReleasedWithinVested(s: Schedule, deposit: nat, actions: seq<Action>, t: int)
    requires s.cliff <= s.vesting && ClaimsUntil(actions, t)
    ensures var v := Run(s, actions, Funded(deposit));
      v.released <= Vested(s, t) && v.paidTreasury == 0 && forall x <- v.inflight :: !x.toTreasury
  {
    if actions == [] {
    } else {
      var a := actions[|actions| - 1];
      ReleasedWithinVested(s, deposit, actions[..|actions| - 1], t);
      assert a in actions;
      if a.Claim? { VestedMonotoneAndBounded(s, a.now, t); }
    }
  }

  /** Whatever was claimed, delivered or bounced before, a claim at `t` leaves exactly the vested amount released. */
  lemma ClaimCatchesUp(s: Schedule, deposit: nat, actions: seq<Action>, t: int)
    requires s.cliff <= s.vesting && ClaimsUntil(actions, t)
    ensures Run(s, actions + [Claim(true, t)], Funded(deposit)).released == Vested(s, t)
  {
    ReleasedWithinVested(s, deposit, actions, t);
    assert (actions + [Claim(true, t)])[..|actions|] == actions;
  }

  /** Deliveries only. */
  ghost predicate OnlyDeliveries(actions: seq<Action>) {
    forall a <- actions :: a.Deliver?
  }

  lemma {:induction false} DeliveriesKeepReleased(s: Schedule, actions: seq<Action>, tail: seq<Action>, v: Vault)
    requires OnlyDeliveries(tail)
    ensures Run(s, actions + tail, v).released == Run(s, actions, v).released
    decreases |tail|
  {
    if tail == [] {
      assert actions + tail == actions;
    } else {
      var n := |tail| - 1;
      DeliveriesKeepReleased(s, actions, tail[..n], v);
      assert (actions + tail)[..|actions + tail| - 1] == actions + tail[..n];
      assert tail[n] in tail;
    }
  }

  /**
   * Path independence: once the transfers of a history ending in a claim at `t` are settled, the
   * beneficiary holds exactly the amount vested at `t`, however often and whenever it claimed.
   */
  lemma SettledClaimsPayTheVestedAmount(s: Schedule, deposit: nat, actions: seq<Action>, t: int, settling: seq<Action>)
    requires s.cliff <= s.vesting && ClaimsUntil(actions, t) && OnlyDeliveries(settling)
    requires Run(s, actions + [Claim(true, t)] + settling, Funded(deposit)).inflight == []
    ensures Run(s, actions + [Claim(true, t)] + settling, Funded(deposit)).paidBeneficiary == Vested(s, t)
    ensures Run(s, actions + [Claim(true, t)] + settling, Funded(deposit)).paidTreasury == 0
  {
    var history := actions + [Claim(true, t)];
    ClaimCatchesUp(s, deposit, actions, t);
    DeliveriesKeepReleased(s, history, settling, Funded(deposit));
    assert ClaimsUntil(history + settling, t);
    ReleasedWithinVested(s, deposit, history + settling, t);
    RunStaysAccounted(s, deposit, history + settling);
  }

  // ----- Emergency revoke -----

  ghost predicate NoBounce(actions: seq<Action>) {
    forall a <- actions :: !a.Bounce?
  }

  lemma {:induction false} RunAppend(s: Schedule, first: seq<Action>, second: seq<Action>, v: Vault)
    ensures Run(s, first + second, v) == Run(s, second, Run(s, first, v))
    decreases |second|
  {
    if second == [] {
      assert first + second == first;
    } else {
      var n := |second| - 1;
      RunAppend(s, first, second[..n], v);
      assert (first + second)[..|first + second| - 1] == first + second[..n];
    }
  }

  lemma {:induction false} ExhaustedStaysExhausted(s: Schedule, actions: seq<Action>, v: Vault)
    requires v.released == s.total && NoBounce(actions)
    ensures Run(s, actions, v).released == s.total
    decreases |actions|
  {
    if actions == [] {
    } else {
      var n := |actions| - 1;
      ExhaustedStaysExhausted(s, actions[..n], v);
      assert actions[n] in actions;
      var a := actions[n];
      if a.Claim? && s.cliff <= s.vesting { VestedMonotoneAndBounded(s, a.now, a.now); }
    }
  }

  /**
   * After an accepted revoke at any point of any history, and until a transfer bounces, every claim
   * and every further revoke is refused; once all is delivered, beneficiary and treasury hold the total.
   */
  lemma RevokeSettlesTheVault(s: Schedule, deposit: nat, before: seq<Action>, revoke: Action, after: seq<Action>,
                              a: Action)
    requires revoke.Revoke? && Accepted(s, revoke, Run(s, before, Funded(deposit))) && NoBounce(after)
    ensures var v := Run(s, before + [revoke] + after, Funded(deposit));
      && (a.Claim? || a.Revoke? ==> !Accepted(s, a, v))
      && (v.inflight == [] ==> v.paidBeneficiary + v.paidTreasury == s.total)
  {
    var revoked := before + [revoke];
    assert revoked[..|before|] == before;
    assert Run(s, revoked, Funded(deposit)).released == s.total;
    RunAppend(s, revoked, after, Funded(deposit));
    ExhaustedStaysExhausted(s, after, Run(s, revoked, Funded(deposit)));
    RunStaysAccounted(s, deposit, revoked + after);
    if a.Claim? && s.cliff <= s.vesting { VestedMonotoneAndBounded(s, a.now, a.now); }
  }

  // ----- What the beneficiary can have -----

  function OwedAmount(): Transfer -> nat { (t: Transfer) => if t.toTreasury then 0 else t.amount }

  /** On its way to the beneficiary. */
  function Owed(ts: seq<Transfer>): nat { SumBy(OwedAmount(), ts) }

  lemma {:induction false} OwedIsPart(ts: seq<Transfer>)
    ensures Owed(ts) <= Amounts(ts)
    decreases |ts|
  {
    if ts != [] { OwedIsPart(ts[..|ts| - 1]); }
  }

  /** The amount vested at the last accepted claim of the run; nothing before the first. */
  function ClaimedUpTo(s: Schedule, actions: seq<Action>, v: Vault): nat {
    if actions == [] then 0
    else
      var n := |actions| - 1;
      if actions[n].Claim? && Accepted(s, actions[n], Run(s, actions[..n], v)) then Vested(s, actions[n].now)
      else ClaimedUpTo(s, actions[..n], v)
  }

  lemma ClaimReleasesVested(s: Schedule, deposit: nat, a: Action, v: Vault)
    requires Accounted(s, deposit, v) && a.Claim? && Accepted(s, a, v)
    ensures Step(s, a, v).paidBeneficiary + Owed(Step(s, a, v).inflight) <= Vested(s, a.now)
  {
    StepStaysAccounted(s, deposit, a, v);
    OwedIsPart(Step(s, a, v).inflight);
  }

  lemma OthersOweNoMore(s: Schedule, a: Action, v: Vault)
    requires !(a.Claim? && Accepted(s, a, v))
    ensures Step(s, a, v).paidBeneficiary + Owed(Step(s, a, v).inflight) <= v.paidBeneficiary + Owed(v.inflight)
  {
    if Accepted(s, a, v) {
      match a
      case Revoke(_, _) => SumByAppend(OwedAmount(), v.inflight, Transfer(true, s.total - v.released));
      case Deliver(i) => SumByRemoveAt(OwedAmount(), v.inflight, i);
      case Bounce(i) => SumByRemoveAt(OwedAmount(), v.inflight, i);
    }
  }

  /**
   * In every run, with revokes and bounces in any order, what the beneficiary has been paid and what is on its way to
   * it is at most the amount vested at its last accepted claim.
   */
  lemma {:induction false} BeneficiaryWithinVested(s: Schedule, deposit: nat, actions: seq<Action>)
    ensures var v := Run(s, actions, Funded(deposit));
      v.paidBeneficiary + Owed(v.inflight) <= ClaimedUpTo(s, actions, Funded(deposit))
  {
    if actions == [] {
    } else {
      var n := |actions| - 1;
      var a, v := actions[n], Run(s, actions[..n], Funded(deposit));
      BeneficiaryWithinVested(s, deposit, actions[..n]);
      if a.Claim? && Accepted(s, a, v) {
        RunStaysAccounted(s, deposit, actions[..n]);
        ClaimReleasesVested(s, deposit, a, v);
      } else {
        OthersOweNoMore(s, a, v);
      }
    }
  }

  // ----- The checkers -----

  predicate CheckLinearClaim(vestedNow: int, releasableBefore: int, releasedBefore: int, releasedAfter: int,
                             walletBefore: int, walletAfter: int) {
    var claimed := releasedAfter - releasedBefore;
    && releasableBefore > 0
    && releasedAfter <= vestedNow
    && claimed > 0
    && walletAfter - walletBefore > 0
    && claimed == releasableBefore
  }

  predicate CheckEmergencyRevoke(total: int, releasedBefore: int, releasedAfter: int, vaultBefore: int, vaultAfter: int,
                                 treasuryBefore: int, treasuryAfter: int) {
    var remainingBefore := total - releasedBefore;
    && remainingBefore > 0
    && releasedAfter == total
    && (vaultAfter < vaultBefore || remainingBefore == 0)
    && (treasuryAfter > treasuryBefore || remainingBefore == 0)
  }

  /** A vault with nothing on its way, before and after an action whose transfer is then delivered. */
  function Settled(s: Schedule, a: Action, v: Vault): Vault {
    Step(s, Deliver(|v.inflight|), Step(s, a, v))
  }

  lemma DeliverLast(s: Schedule, v: Vault, amount: nat)
    requires amount <= v.held
    ensures Step(s, Deliver(|v.inflight|), v.(inflight := v.inflight + [Transfer(false, amount)]))
      == v.(held := v.held - amount, paidBeneficiary := v.paidBeneficiary + amount)
  {
    assert RemoveAt(v.inflight + [Transfer(false, amount)], |v.inflight|) == v.inflight;
  }

  /** A claim whose transfer is delivered moves what vested beyond the released amount to the beneficiary. */
  lemma SettledClaim(s: Schedule, deposit: nat, v: Vault, now: int)
    requires s.cliff <= s.vesting && s.total <= deposit && Accounted(s, deposit, v)
    ensures var after := Settled(s, Claim(true, now), v);
      var paid := if Vested(s, now) > v.released then Vested(s, now) - v.released else 0;
      && after.released == v.released + paid
      && after.held == v.held - paid
      && after.paidBeneficiary == v.paidBeneficiary + paid
      && after.paidTreasury == v.paidTreasury && after.inflight == v.inflight
  {
    ClaimEffect(s, deposit, v, true, now);
    VestedMonotoneAndBounded(s, now, now);
    if Vested(s, now) > v.released {
      DeliverLast(s, v.(released := Vested(s, now)), Vested(s, now) - v.released);
    }
  }

  /**
   * The claim check compares amounts computed when it read the clock with what the chain paid later:
   * a genuine, delivered claim passes exactly when something was releasable at the reading and nothing
   * more vested until the chain handled it.
   */
  lemma LinearClaimCheckIff(s: Schedule, deposit: nat, v: Vault, read: int, handled: int)
    requires s.cliff <= s.vesting && s.total <= deposit && Accounted(s, deposit, v)
    requires read <= handled
    ensures var after := Settled(s, Claim(true, handled), v);
      CheckLinearClaim(Vested(s, read), ReleasableAmountAt(s, v.released, read).value, v.released, after.released,
                       v.paidBeneficiary, after.paidBeneficiary)
      <==> v.released < Vested(s, read) && Vested(s, handled) == Vested(s, read)
  {
    VestedMonotoneAndBounded(s, read, handled);
    SettledClaim(s, deposit, v, handled);
  }

  /** A claim handled two seconds after the reading fails the check while the schedule runs. */
  lemma LateClaimFailsTheCheck()
    ensures var s := Schedule(100, 0, 0, 100);
      var after := Settled(s, Claim(true, 12), Funded(100));
      && after.paidBeneficiary == 12
      && !CheckLinearClaim(Vested(s, 10), ReleasableAmountAt(s, 0, 10).value, 0, after.released, 0,
        after.paidBeneficiary)
  {
  }

  /** What the two checks ask of the readings; the remaining clauses of the source never decide. */
  lemma ChecksAsk(total: int, r0: int, r1: int, v0: int, v1: int, t0: int, t1: int, vested: int, releasable: int)
    ensures CheckEmergencyRevoke(total, r0, r1, v0, v1, t0, t1) <==> r0 < total && r1 == total && v1 < v0 && t1 > t0
    ensures CheckLinearClaim(vested, releasable, r0, r1, v0, v1) <==>
      releasable > 0 && r1 - r0 == releasable && r1 <= vested && v1 > v0
  {
  }

  /** The revoke check passes on every accepted revoke whose transfer is delivered. */
  lemma RevokeCheckPasses(s: Schedule, deposit: nat, v: Vault, revoke: Action)
    requires s.total <= deposit && Accounted(s, deposit, v)
    requires revoke.Revoke? && Accepted(s, revoke, v)
    ensures var after := Settled(s, revoke, v);
      CheckEmergencyRevoke(s.total, v.released, after.released, v.held, after.held, v.paidTreasury, after.paidTreasury)
  {
    StepStaysAccounted(s, deposit, revoke, v);
    SumByRemoveAt(AmountOf(), Step(s, revoke, v).inflight, |v.inflight|);
  }
}
