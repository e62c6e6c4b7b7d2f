/**
 * Safety of the bootstrap over every history of crashed, refused and completed launches,
 * ordinary and finalizing ones mixed, with lost messages, failed wallet reads, and mints
 * and relays that arrive late.
 */
module BootstrapSafety {
  import opened Common
  import opened Sums
  import opened Allocations
  import opened Chain
  import opened Script

  /** Sum of the allocations below `n` that have been minted. */
  function MintedSum(minted: multiset<nat>, n: nat): nat
    requires n <= |MINT_ALLOCATIONS|
  {
    if n == 0 then 0 else MintedSum(minted, n - 1) + (if n - 1 in minted then AmountOf(n - 1) else 0)
  }

  lemma {:induction false} MintedSumAfterMint(minted: multiset<nat>, k: nat, n: nat)
    requires n <= |MINT_ALLOCATIONS| && k < |MINT_ALLOCATIONS| && k !in minted
    ensures MintedSum(minted + multiset{k}, n) == MintedSum(minted, n) + (if k < n then AmountOf(k) else 0)
  {
    if n == 0 {
    } else {
      MintedSumAfterMint(minted, k, n - 1);
    }
  }

  lemma MintedSumIsCapped(minted: multiset<nat>)
    ensures MintedSum(minted, |MINT_ALLOCATIONS|) <= MAX_SUPPLY_NANO
    ensures MintedSum(minted, |MINT_ALLOCATIONS|) == MAX_SUPPLY_NANO <==>
      forall k: nat :: k < |MINT_ALLOCATIONS| ==> k in minted
  {
    assert MintedSum(minted, 1) == if 0 in minted then 7 * NANO else 0;
    assert MintedSum(minted, 2) == MintedSum(minted, 1) + (if 1 in minted then 200 * NANO else 0);
    assert MintedSum(minted, 3) == MintedSum(minted, 2) + (if 2 in minted then 300 * NANO else 0);
    assert MintedSum(minted, 4) == MintedSum(minted, 3) + (if 3 in minted then 150 * NANO else 0);
    assert MintedSum(minted, 5) == MintedSum(minted, 4) + (if 4 in minted then 300 * NANO else 0);
    assert MintedSum(minted, 6) == MintedSum(minted, 5) + (if 5 in minted then 43 * NANO else 0);
  }

  // ----- What every history keeps -----

  /** The supply is the sum of the balances. */
  ghost predicate Even(w: World) {
    w.totalSupply == Total(w.balances)
  }

  /** The supply is the sum of the balances and stays within the cap. */
  ghost predicate Solid(w: World) {
    Even(w) && w.totalSupply <= MAX_SUPPLY_NANO
  }

  /** Whatever was minted is still at its receiver. */
  ghost predicate Held(b: AddressBook, w: World) {
    forall k :: k in w.minted ==> k < |MINT_ALLOCATIONS| && Get(w.balances, b.ReceiverOf(k)) >= AmountOf(k)
  }

  /** The admin is revoked only behind a closed mint, and recorded so only when both hold. */
  ghost predicate Sealed(w: World) {
    && (w.admin == REVOKED_ADMIN ==> !w.mintable)
    && (w.record == Some(true) ==> !w.mintable && w.admin == REVOKED_ADMIN)
  }

  ghost predicate KeepsLedger(b: AddressBook, w: World, w': World) {
    (Even(w) ==> Even(w')) && (Solid(w) ==> Solid(w')) && (Held(b, w) ==> Held(b, w'))
  }

  ghost predicate Safe(b: AddressBook, w: World) {
    Solid(w) && Held(b, w) && Sealed(w)
  }

  /** What the two irreversible steps rely on their predecessors for. */
  ghost predicate Prepared(t: Step, w: World) {
    && (t == RevokeAdmin ==> !w.mintable)
    && (t == Record(true) ==> !w.mintable && w.admin == REVOKED_ADMIN)
  }

  /** Messages other than mints leave the token ledger alone. */
  lemma OthersKeepLedger(b: AddressBook, m: Msg, w: World, relayed: bool)
    requires Accepts(b, m, w) && !m.Mint?
    ensures var w' := Apply(b, m, w, relayed);
      && w'.balances == w.balances && w'.minted == w.minted && w'.totalSupply == w.totalSupply
      && w'.emissionFunded == w.emissionFunded && w'.unrelayed == w.unrelayed
      && w'.record == w.record && w'.late == w.late
  {
  }

  lemma MintKeepsHeld(b: AddressBook, k: nat, w: World, w': World)
    requires Held(b, w) && k < |MINT_ALLOCATIONS| && w'.minted == w.minted + multiset{k}
    requires w'.balances == Credit(w.balances, b.ReceiverOf(k), AmountOf(k))
    ensures Held(b, w')
  {
    forall j | j in w'.minted ensures j < |MINT_ALLOCATIONS| && Get(w'.balances, b.ReceiverOf(j)) >= AmountOf(j) {
      assert j == k || j in w.minted;
    }
  }

  lemma MintKeepsLedger(b: AddressBook, k: nat, w: World, relayed: bool)
    requires Accepts(b, Mint(k), w)
    ensures KeepsLedger(b, w, Apply(b, Mint(k), w, relayed))
  {
    TotalUpdate(w.balances, b.ReceiverOf(k), Get(w.balances, b.ReceiverOf(k)) + AmountOf(k));
    if Held(b, w) { MintKeepsHeld(b, k, w, Apply(b, Mint(k), w, relayed)); }
  }

  lemma MessageKeepsLedger(b: AddressBook, m: Msg, w: World, d: Delivery)
    ensures KeepsLedger(b, w, Transmit(b, m, w, d))
  {
    if !d.Lost? && Accepts(b, m, w) {
      if m.Mint? {
        MintKeepsLedger(b, m.k, w, d.Lands?);
      } else {
        OthersKeepLedger(b, m, w, d.Lands?);
      }
    }
  }

  lemma StepKeepsLedger(b: AddressBook, t: Step, w: World, d: Delivery, blind: bool)
    ensures KeepsLedger(b, w, Perform(b, t, w, d, blind).world)
  {
    match Probe(b, t, Seen(w, blind))
    case Send(m) => MessageKeepsLedger(b, m, w, d);
    case Save(_) =>
    case _ =>
  }

  /** Which steps send the messages that take authority away. */
  lemma AuthorityMessages(b: AddressBook, t: Step, w: World, m: Msg)
    requires Probe(b, t, w) == Send(m)
    ensures m.ChangeOwner? ==>
      (t == RevokeAdmin && m.newOwner == REVOKED_ADMIN) || (t == HandOverAdmin && m.newOwner == b.timelock)
    ensures m.CloseMint? ==> t == StopMinting
  {
  }

  lemma MessageStaysSealed(b: AddressBook, t: Step, m: Msg, w: World, d: Delivery)
    requires b.Valid() && Sealed(w) && Prepared(t, w)
    requires m.ChangeOwner? ==>
      (t == RevokeAdmin && m.newOwner == REVOKED_ADMIN) || (t == HandOverAdmin && m.newOwner == b.timelock)
    ensures var w' := Transmit(b, m, w, d); Sealed(w') && (!w.mintable ==> !w'.mintable)
  {
  }

  lemma StepStaysSealed(b: AddressBook, t: Step, w: World, d: Delivery, blind: bool)
    requires b.Valid() && Sealed(w) && Prepared(t, w)
    ensures Sealed(Perform(b, t, w, d, blind).world)
  {
    match Probe(b, t, Seen(w, blind))
    case Send(m) =>
      AuthorityMessages(b, t, Seen(w, blind), m);
      MessageStaysSealed(b, t, m, w, d);
    case Save(_) =>
    case _ =>
  }

  /** The two irreversible steps confirm what they did. */
  lemma SealingConfirmed(b: AddressBook, t: Step, w: World, d: Delivery, blind: bool)
    requires b.Valid() && Prepared(t, w) && (t == StopMinting || t == RevokeAdmin)
    ensures var s := Perform(b, t, w, d, blind);
      s.ok ==> !s.world.mintable && (t == RevokeAdmin ==> s.world.admin == REVOKED_ADMIN)
  {
  }

  /** Arrivals touch the token ledger only. */
  ghost predicate SameAuthority(w: World, w': World) {
    && w'.live == w.live && w'.mintable == w.mintable && w'.admin == w.admin && w'.record == w.record
    && w'.jettonTimelock == w.jettonTimelock && w'.feeDestinations == w.feeDestinations
    && w'.excluded == w.excluded && w'.feeActive == w.feeActive
    && w'.poolMaster == w.poolMaster && w'.masterJettonWallet == w.masterJettonWallet
    && w'.governorAddr == w.governorAddr
  }

  lemma MintKeepsAuthority(b: AddressBook, k: nat, w: World, d: Delivery)
    ensures SameAuthority(w, Transmit(b, Mint(k), w, d))
  {
  }

  lemma ArriveKeepsAuthority(b: AddressBook, a: Arrival, w: World)
    ensures SameAuthority(w, Arrive(b, a, w))
  {
    if a.MintArrives? && a.k in w.late {
      MintKeepsAuthority(b, a.k, w.(late := w.late - multiset{a.k}), if a.relayed then Lands else LandsUnrelayed);
    }
  }

  lemma {:induction false} ArrivalsKeepAuthority(b: AddressBook, arrivals: seq<Arrival>, w: World)
    ensures SameAuthority(w, Arrivals(b, arrivals, w))
    decreases |arrivals|
  {
    if arrivals != [] {
      ArriveKeepsAuthority(b, arrivals[0], w);
      ArrivalsKeepAuthority(b, arrivals[1..], Arrive(b, arrivals[0], w));
    }
  }

  lemma ArriveKeepsLedger(b: AddressBook, a: Arrival, w: World)
    ensures KeepsLedger(b, w, Arrive(b, a, w))
  {
    if a.MintArrives? && a.k in w.late {
      MessageKeepsLedger(b, Mint(a.k), w.(late := w.late - multiset{a.k}), if a.relayed then Lands else LandsUnrelayed);
    }
  }

  lemma {:induction false} ArrivalsKeepLedger(b: AddressBook, arrivals: seq<Arrival>, w: World)
    ensures KeepsLedger(b, w, Arrivals(b, arrivals, w))
    decreases |arrivals|
  {
    if arrivals != [] {
      ArriveKeepsLedger(b, arrivals[0], w);
      ArrivalsKeepLedger(b, arrivals[1..], Arrive(b, arrivals[0], w));
    }
  }

  /** Every revoking step follows the closing step, and every final record the revoking step. */
  ghost predicate Chained(steps: seq<Step>) {
    forall i :: 0 < i < |steps| ==>
      && (steps[i] == RevokeAdmin ==> steps[i - 1] == StopMinting)
      && (steps[i] == Record(true) ==> steps[i - 1] == RevokeAdmin)
  }

  lemma {:induction false} RunIsSafe(b: AddressBook, steps: seq<Step>, w: World, fates: seq<Fate>)
    requires b.Valid() && Safe(b, w) && Chained(steps) && (steps != [] ==> Prepared(steps[0], w))
    ensures Safe(b, Run(b, steps, w, fates).world)
    decreases |steps|
  {
    if steps == [] || fates == [] || fates[0].Crash? {
    } else {
      var f := fates[0];
      var w1 := Arrivals(b, f.arrivals, w);
      ArrivalsKeepAuthority(b, f.arrivals, w);
      ArrivalsKeepLedger(b, f.arrivals, w);
      StepKeepsLedger(b, steps[0], w1, f.delivery, f.blind);
      StepStaysSealed(b, steps[0], w1, f.delivery, f.blind);
      if steps[0] == StopMinting || steps[0] == RevokeAdmin { SealingConfirmed(b, steps[0], w1, f.delivery, f.blind); }
      RunCons(b, steps, w, fates);
      var s := Play(b, steps[0], w, f);
      if s.ok {
        if |steps| > 1 {
          assert steps[1..][0] == steps[1];
        }
        RunIsSafe(b, steps[1..], s.world, fates[1..]);
      }
    }
  }

  /** Steps that are neither irreversible nor the final record. */
  ghost predicate Reversible(steps: seq<Step>) {
    forall i :: 0 <= i < |steps| ==> steps[i] != RevokeAdmin && steps[i] != Record(true)
  }

  lemma ReversibleAppend(p: seq<Step>, q: seq<Step>)
    requires Reversible(p) && Reversible(q)
    ensures Reversible(p + q)
  {
  }

  lemma SetupIsReversible()
    ensures Reversible(SetupSteps()) && SetupSteps()[0] == Deploy(JettonMasterC)
  {
    var core := DeploySteps(CORE_CONTRACTS);
    assert core[0] == Deploy(JettonMasterC);
    ReversibleAppend(core, [Wire, SetJettonWallet]);
    ReversibleAppend(core + [Wire, SetJettonWallet], DeploySteps(GOVERNANCE_CONTRACTS));
    var more := core + [Wire, SetJettonWallet] + DeploySteps(GOVERNANCE_CONTRACTS);
    ReversibleAppend(more, [PointGovernor]);
    ReversibleAppend(more + [PointGovernor], DeploySteps(VESTING_CONTRACTS));
  }

  lemma FeesAreReversible(b: AddressBook)
    ensures Reversible(FeeSteps(b))
  {
    var first := [FeeDestinations] + ExcludeSteps(b.ExcludedOwners());
    ReversibleAppend([FeeDestinations], ExcludeSteps(b.ExcludedOwners()));
    ReversibleAppend(first, SyncSteps(b.FeeConfigOwners()));
    ReversibleAppend(first + SyncSteps(b.FeeConfigOwners()), ActiveSteps(b.FeeConfigOwners()));
  }

  lemma HeadIsReversible(b: AddressBook, finalize: bool)
    ensures var head := SetupSteps() + MintSteps() + FeeSteps(b) + AuthoritySteps(finalize);
      Reversible(head) && head != [] && head[0] == Deploy(JettonMasterC)
  {
    SetupIsReversible();
    FeesAreReversible(b);
    ReversibleAppend(SetupSteps(), MintSteps());
    ReversibleAppend(SetupSteps() + MintSteps(), FeeSteps(b));
    ReversibleAppend(SetupSteps() + MintSteps() + FeeSteps(b), AuthoritySteps(finalize));
  }

  lemma EndingIsChained(front: seq<Step>)
    requires Reversible(front)
    ensures Chained(front + [StopMinting, RevokeAdmin, Record(true)]) && Chained(front + [Record(false)])
  {
  }

  lemma ProgramIsChained(b: AddressBook, finalize: bool)
    ensures Chained(Program(b, finalize))
    ensures Program(b, finalize) != [] && Program(b, finalize)[0] == Deploy(JettonMasterC)
  {
    var head := SetupSteps() + MintSteps() + FeeSteps(b) + AuthoritySteps(finalize);
    HeadIsReversible(b, finalize);
    if finalize {
      ProgramSplit(b);
      ReversibleAppend(VerifySteps(b), [VerifyEmission, VerifySupply]);
      ReversibleAppend(head, Checks(b));
      EndingIsChained(head + Checks(b));
      assert head + (Checks(b) + [StopMinting, RevokeAdmin, Record(true)])
        == head + Checks(b) + [StopMinting, RevokeAdmin, Record(true)];
    } else {
      EndingIsChained(head);
      assert head + [] + [Record(false)] == head + [Record(false)];
    }
  }

  /** The checks of a finalizing run. */
  function Checks(b: AddressBook): seq<Step> {
    VerifySteps(b) + [VerifyEmission, VerifySupply]
  }

  lemma ProgramSplit(b: AddressBook)
    ensures Program(b, true) ==
      SetupSteps() + MintSteps() + FeeSteps(b) + AuthoritySteps(true)
      + (Checks(b) + [StopMinting, RevokeAdmin, Record(true)])
  {
    var head := SetupSteps() + MintSteps() + FeeSteps(b) + AuthoritySteps(true);
    FinalSplit(head, VerifySteps(b));
  }

  lemma FinalSplit(head: seq<Step>, checks: seq<Step>)
    ensures head + (checks + [VerifyEmission, VerifySupply, StopMinting, RevokeAdmin]) + [Record(true)]
      == head + (checks + [VerifyEmission, VerifySupply] + [StopMinting, RevokeAdmin, Record(true)])
  {
  }

  lemma UntouchedIsSafe(b: AddressBook)
    requires b.Valid()
    ensures Safe(b, Untouched(b))
  {
  }

  lemma MintedSumOfNone(n: nat)
    requires n <= |MINT_ALLOCATIONS|
    ensures MintedSum(multiset{}, n) == 0
  {
    if n > 0 {
      MintedSumOfNone(n - 1);
    }
  }

  /** Every reachable world is safe. */
  lemma {:induction false} HistoryIsSafe(b: AddressBook, history: seq<Event>)
    requires b.Valid()
    ensures Safe(b, Reached(b, history))
    decreases |history|
  {
    if history == [] {
      UntouchedIsSafe(b);
    } else {
      var init, last := history[..|history| - 1], history[|history| - 1];
      HistoryIsSafe(b, init);
      match last
      case Launch(finalize, fates) =>
        ProgramIsChained(b, finalize);
        RunIsSafe(b, Program(b, finalize), Reached(b, init), fates);
      case Arrives(a) =>
        ArriveKeepsAuthority(b, a, Reached(b, init));
        ArriveKeepsLedger(b, a, Reached(b, init));
    }
  }

  /** The zero admin and the saved `supplyFinalized` flag always stand behind a closed mint. */
  lemma RevokedOnlyWhenClosed(b: AddressBook, history: seq<Event>)
    requires b.Valid()
    ensures var w := Reached(b, history);
      && (w.admin == REVOKED_ADMIN ==> !w.mintable)
      && (w.record == Some(true) ==> !w.mintable && w.admin == REVOKED_ADMIN)
  {
    HistoryIsSafe(b, history);
  }

  // ----- What is given away or written once -----

  /**
   * From `w` to `w'`: without the admin the ledger, the mint and the admin stay, and so does the ledger behind a closed
   * mint; without the timelock the fee set-up and the timelock stay; wiring that was written stays, and contracts
   * stay live.
   */
  ghost predicate Preserved(b: AddressBook, w: World, w': World) {
    && (w.admin != b.deployer ==> w'.admin == w.admin && w'.mintable == w.mintable)
    && (w.admin != b.deployer || !w.mintable ==>
          w'.balances == w.balances && w'.totalSupply == w.totalSupply && w'.minted == w.minted)
    && (!w.mintable ==> !w'.mintable)
    && (w.jettonTimelock != b.deployer ==>
          && w'.jettonTimelock == w.jettonTimelock && w'.feeDestinations == w.feeDestinations
          && w'.excluded == w.excluded && w'.feeActive == w.feeActive)
    && (w.poolMaster.Some? ==> w'.poolMaster == w.poolMaster)
    && (w.masterJettonWallet.Some? ==> w'.masterJettonWallet == w.masterJettonWallet)
    && (w.governorAddr != b.deployer ==> w'.governorAddr == w.governorAddr)
    && w.live <= w'.live
  }

  lemma MessagePreserves(b: AddressBook, m: Msg, w: World, d: Delivery)
    ensures Preserved(b, w, Transmit(b, m, w, d))
  {
    if !d.Lost? && Accepts(b, m, w) {
      match m
      case Mint(_) =>
      case _ =>
    }
  }

  lemma StepPreserves(b: AddressBook, t: Step, w: World, d: Delivery, blind: bool)
    ensures Preserved(b, w, Perform(b, t, w, d, blind).world)
  {
    var p := Probe(b, t, Seen(w, blind));
    if p.Send? { MessagePreserves(b, p.msg, w, d); }
  }

  lemma ArrivePreserves(b: AddressBook, a: Arrival, w: World)
    ensures Preserved(b, w, Arrive(b, a, w))
  {
    if a.MintArrives? && a.k in w.late {
      MessagePreserves(b, Mint(a.k), w.(late := w.late - multiset{a.k}), if a.relayed then Lands else LandsUnrelayed);
    }
  }

  lemma {:induction false} ArrivalsPreserve(b: AddressBook, arrivals: seq<Arrival>, w: World)
    ensures Preserved(b, w, Arrivals(b, arrivals, w))
    decreases |arrivals|
  {
    if arrivals != [] {
      ArrivePreserves(b, arrivals[0], w);
      ArrivalsPreserve(b, arrivals[1..], Arrive(b, arrivals[0], w));
    }
  }

  lemma {:induction false} RunPreserves(b: AddressBook, steps: seq<Step>, w: World, fates: seq<Fate>)
    ensures Preserved(b, w, Run(b, steps, w, fates).world)
    decreases |steps|
  {
    if steps == [] || fates == [] || fates[0].Crash? {
    } else {
      var f := fates[0];
      ArrivalsPreserve(b, f.arrivals, w);
      StepPreserves(b, steps[0], Arrivals(b, f.arrivals, w), f.delivery, f.blind);
      RunCons(b, steps, w, fates);
      var s := Play(b, steps[0], w, f);
      if s.ok { RunPreserves(b, steps[1..], s.world, fates[1..]); }
    }
  }

  /**
   * From any chain on, whatever launches and late messages follow: what the deployer has given away it cannot change
   * any more, and what is written once stays written.
   */
  lemma {:induction false} GivenAwayStays(b: AddressBook, w: World, history: seq<Event>)
    ensures Preserved(b, w, After(b, w, history))
    decreases |history|
  {
    if history != [] {
      var init, last := history[..|history| - 1], history[|history| - 1];
      GivenAwayStays(b, w, init);
      match last
      case Launch(finalize, fates) => RunPreserves(b, Program(b, finalize), After(b, w, init), fates);
      case Arrives(a) => ArrivePreserves(b, a, After(b, w, init));
    }
  }

  // ----- Minting twice -----

  /** What a mint that lands can run into: its own allocation, minted before, or a wallet that holds something. */
  datatype Clash = OnAllocation | OnWallet

  predicate Hits(b: AddressBook, c: Clash, k: nat, w: World) {
    && k < |MINT_ALLOCATIONS|
    && match c
       case OnAllocation => k in w.minted
       case OnWallet => Get(w.balances, b.ReceiverOf(k)) != 0
  }

  /** The message is a mint that lands, is accepted, and clashes. */
  predicate MessageClashes(b: AddressBook, c: Clash, m: Msg, w: World, d: Delivery) {
    m.Mint? && !d.Lost? && Accepts(b, m, w) && Hits(b, c, m.k, w)
  }

  predicate StepClashes(b: AddressBook, c: Clash, t: Step, w: World, d: Delivery, blind: bool) {
    var p := Probe(b, t, Seen(w, blind));
    p.Send? && MessageClashes(b, c, p.msg, w, d)
  }

  predicate ArrivalClashes(b: AddressBook, c: Clash, a: Arrival, w: World) {
    a.MintArrives? && a.k in w.late && MessageClashes(b, c, Mint(a.k), w, Lands)
  }

  predicate ArrivalsClash(b: AddressBook, c: Clash, arrivals: seq<Arrival>, w: World) {
    arrivals != []
    && (ArrivalClashes(b, c, arrivals[0], w) || ArrivalsClash(b, c, arrivals[1..], Arrive(b, arrivals[0], w)))
  }

  predicate RunClashes(b: AddressBook, c: Clash, steps: seq<Step>, w: World, fates: seq<Fate>) {
    if steps == [] || fates == [] || fates[0].Crash? then false
    else
      var f := fates[0];
      var s := Play(b, steps[0], w, f);
      || ArrivalsClash(b, c, f.arrivals, w)
      || StepClashes(b, c, steps[0], Arrivals(b, f.arrivals, w), f.delivery, f.blind)
      || (s.ok && RunClashes(b, c, steps[1..], s.world, fates[1..]))
  }

  /** Some mint of the history lands on what it should not. */
  predicate HistoryClashes(b: AddressBook, c: Clash, history: seq<Event>) {
    if history == [] then false
    else
      var init, last := history[..|history| - 1], history[|history| - 1];
      || HistoryClashes(b, c, init)
      || match last
         case Launch(finalize, fates) => RunClashes(b, c, Program(b, finalize), Reached(b, init), fates)
         case Arrives(a) => ArrivalClashes(b, c, a, Reached(b, init))
  }

  /**
   * A launch mints an allocation again exactly when it probes the minted receiver with a failed read while the
   * deployer is still admin, the mint is open, the cap has room, and, for the emission, no relay has arrived.
   */
  lemma StepMintsAgainIff(b: AddressBook, t: Step, w: World, d: Delivery, blind: bool)
    requires Held(b, w)
    ensures StepClashes(b, OnAllocation, t, w, d, blind) <==>
      && t.MintTo? && t.k in w.minted && blind && !d.Lost?
      && JettonMasterC in w.live && w.admin == b.deployer && w.mintable
      && w.totalSupply + AmountOf(t.k) <= MAX_SUPPLY_NANO
      && (t.k == EMISSION ==> StakingMasterC in w.live && w.emissionFunded == 0)
  {
    if t.MintTo? && t.k in w.minted {
      assert Get(w.balances, b.ReceiverOf(t.k)) > 0;
    }
  }

  /** No allocation was minted twice. */
  ghost predicate Once(w: World) {
    forall k :: w.minted[k] <= 1
  }

  lemma MessageStaysOnceIff(b: AddressBook, m: Msg, w: World, d: Delivery)
    ensures Once(Transmit(b, m, w, d)) <==> Once(w) && !MessageClashes(b, OnAllocation, m, w, d)
  {
    if !d.Lost? && Accepts(b, m, w) {
      if m.Mint? {
        var w' := Transmit(b, m, w, d);
        assert forall k :: w'.minted[k] == w.minted[k] + if k == m.k then 1 else 0;
        assert w'.minted[m.k] == w.minted[m.k] + 1;
      } else {
        OthersKeepLedger(b, m, w, d.Lands?);
      }
    }
  }

  lemma StepStaysOnceIff(b: AddressBook, t: Step, w: World, d: Delivery, blind: bool)
    ensures Once(Perform(b, t, w, d, blind).world) <==> Once(w) && !StepClashes(b, OnAllocation, t, w, d, blind)
  {
    var p := Probe(b, t, Seen(w, blind));
    if p.Send? {
      MessageStaysOnceIff(b, p.msg, w, d);
    } else {
      assert Perform(b, t, w, d, blind).world.minted == w.minted;
    }
  }

  lemma ArriveStaysOnceIff(b: AddressBook, a: Arrival, w: World)
    ensures Once(Arrive(b, a, w)) <==> Once(w) && !ArrivalClashes(b, OnAllocation, a, w)
  {
    if a.MintArrives? && a.k in w.late {
      MessageStaysOnceIff(b, Mint(a.k), w.(late := w.late - multiset{a.k}),
        if a.relayed then Lands else LandsUnrelayed);
    }
  }

  lemma {:induction false} ArrivalsStayOnceIff(b: AddressBook, arrivals: seq<Arrival>, w: World)
    ensures Once(Arrivals(b, arrivals, w)) <==> Once(w) && !ArrivalsClash(b, OnAllocation, arrivals, w)
    decreases |arrivals|
  {
    if arrivals != [] {
      ArriveStaysOnceIff(b, arrivals[0], w);
      ArrivalsStayOnceIff(b, arrivals[1..], Arrive(b, arrivals[0], w));
    }
  }

  lemma {:induction false} RunStaysOnceIff(b: AddressBook, steps: seq<Step>, w: World, fates: seq<Fate>)
    ensures Once(Run(b, steps, w, fates).world) <==> Once(w) && !RunClashes(b, OnAllocation, steps, w, fates)
    decreases |steps|
  {
    if steps == [] || fates == [] || fates[0].Crash? {
    } else {
      var f := fates[0];
      ArrivalsStayOnceIff(b, f.arrivals, w);
      StepStaysOnceIff(b, steps[0], Arrivals(b, f.arrivals, w), f.delivery, f.blind);
      RunCons(b, steps, w, fates);
      var s := Play(b, steps[0], w, f);
      if s.ok { RunStaysOnceIff(b, steps[1..], s.world, fates[1..]); }
    }
  }

  /**
   * Over every history: the supply is the sum of the balances and within 1000 BURN; and no allocation is minted twice
   * exactly when no launch probed an already minted receiver with a failed read, and no late mint arrived after its
   * allocation was minted, each while the chain still took the mint.
   */
  lemma {:induction false} MintedAtMostOnceIff(b: AddressBook, history: seq<Event>)
    requires b.Valid()
    ensures Solid(Reached(b, history))
    ensures Once(Reached(b, history)) <==> !HistoryClashes(b, OnAllocation, history)
    decreases |history|
  {
    HistoryIsSafe(b, history);
    if history != [] {
      var init, last := history[..|history| - 1], history[|history| - 1];
      MintedAtMostOnceIff(b, init);
      match last
      case Launch(finalize, fates) => RunStaysOnceIff(b, Program(b, finalize), Reached(b, init), fates);
      case Arrives(a) => ArriveStaysOnceIff(b, a, Reached(b, init));
    }
  }

  // ----- Histories without clashes -----

  /** Every wallet read of the launch succeeds, and no late mint arrives in it. */
  ghost predicate Readable(fates: seq<Fate>) {
    forall i :: 0 <= i < |fates| && fates[i].Go? ==> !fates[i].blind && OnlyRelays(fates[i].arrivals)
  }

  ghost predicate OnlyRelays(arrivals: seq<Arrival>) {
    forall i :: 0 <= i < |arrivals| ==> arrivals[i].RelayArrives?
  }

  ghost predicate ReadableHistory(history: seq<Event>) {
    forall i :: 0 <= i < |history| ==>
      match history[i]
      case Launch(_, fates) => Readable(fates)
      case Arrives(a) => a.RelayArrives?
  }

  /** A mint is sent only to a receiver that is seen to hold nothing. */
  lemma MintSentOnEmpty(b: AddressBook, t: Step, w: World)
    requires Probe(b, t, w).Send? && Probe(b, t, w).msg.Mint?
    ensures var k := Probe(b, t, w).msg.k; k < |MINT_ALLOCATIONS| && Get(w.balances, b.ReceiverOf(k)) == 0
  {
  }

  lemma {:induction false} RelaysNeverClash(b: AddressBook, c: Clash, arrivals: seq<Arrival>, w: World)
    requires OnlyRelays(arrivals)
    ensures !ArrivalsClash(b, c, arrivals, w)
    decreases |arrivals|
  {
    if arrivals != [] { RelaysNeverClash(b, c, arrivals[1..], Arrive(b, arrivals[0], w)); }
  }

  lemma ReadableStepNeverClashes(b: AddressBook, c: Clash, t: Step, w: World, d: Delivery)
    requires Held(b, w)
    ensures !StepClashes(b, c, t, w, d, false)
  {
    var p := Probe(b, t, w);
    if p.Send? && p.msg.Mint? {
      MintSentOnEmpty(b, t, w);
    }
  }

  lemma {:induction false} ReadableRunNeverClashes(b: AddressBook, c: Clash, steps: seq<Step>, w: World,
                                                   fates: seq<Fate>)
    requires Solid(w) && Held(b, w) && Readable(fates)
    ensures !RunClashes(b, c, steps, w, fates)
    decreases |steps|
  {
    if steps == [] || fates == [] || fates[0].Crash? {
    } else {
      var f := fates[0];
      var w1 := Arrivals(b, f.arrivals, w);
      RelaysNeverClash(b, c, f.arrivals, w);
      ArrivalsKeepLedger(b, f.arrivals, w);
      ReadableStepNeverClashes(b, c, steps[0], w1, f.delivery);
      StepKeepsLedger(b, steps[0], w1, f.delivery, f.blind);
      var s := Play(b, steps[0], w, f);
      if s.ok {
        assert forall i :: 0 <= i < |fates[1..]| ==> fates[1..][i] == fates[i + 1];
        ReadableRunNeverClashes(b, c, steps[1..], s.world, fates[1..]);
      }
    }
  }

  /** Where every wallet read succeeds and no late mint arrives, nothing is minted twice or on top of anything. */
  lemma {:induction false} ReadableHistoryNeverClashes(b: AddressBook, c: Clash, history: seq<Event>)
    requires b.Valid() && ReadableHistory(history)
    ensures !HistoryClashes(b, c, history)
    decreases |history|
  {
    if history != [] {
      var init, last := history[..|history| - 1], history[|history| - 1];
      ReadableHistoryNeverClashes(b, c, init);
      HistoryIsSafe(b, init);
      if last.Launch? { ReadableRunNeverClashes(b, c, Program(b, last.finalize), Reached(b, init), last.fates); }
    }
  }

  /** There no allocation is minted twice, whatever messages are lost and whatever relays are late. */
  lemma MintedAtMostOnce(b: AddressBook, history: seq<Event>)
    requires b.Valid() && ReadableHistory(history)
    ensures Once(Reached(b, history))
  {
    ReadableHistoryNeverClashes(b, OnAllocation, history);
    MintedAtMostOnceIff(b, history);
  }

  /** Allocation `k` is minted once and sits, alone and in full, at its receiver. */
  ghost predicate BackedAt(b: AddressBook, minted: multiset<nat>, balances: Balances, k: nat) {
    && k < |MINT_ALLOCATIONS| && minted[k] == 1
    && Get(balances, b.ReceiverOf(k)) == AmountOf(k)
    && forall j :: j in minted && j < |MINT_ALLOCATIONS| && b.ReceiverOf(j) == b.ReceiverOf(k) ==> j == k
  }

  ghost predicate ReceivesSome(b: AddressBook, minted: multiset<nat>, a: Address) {
    exists k :: k in minted && k < |MINT_ALLOCATIONS| && b.ReceiverOf(k) == a
  }

  ghost predicate Backed(b: AddressBook, w: World) {
    && (forall k :: k in w.minted ==> BackedAt(b, w.minted, w.balances, k))
    && (forall a :: Get(w.balances, a) != 0 ==> ReceivesSome(b, w.minted, a))
  }

  ghost predicate Accounted(w: World) {
    w.totalSupply == MintedSum(w.minted, |MINT_ALLOCATIONS|)
  }

  lemma MintStaysBacked(b: AddressBook, k: nat, w: World, w': World)
    requires Backed(b, w) && k < |MINT_ALLOCATIONS| && Get(w.balances, b.ReceiverOf(k)) == 0
    requires w'.balances == Credit(w.balances, b.ReceiverOf(k), AmountOf(k)) && w'.minted == w.minted + multiset{k}
    ensures Backed(b, w') && k !in w.minted
  {
    var owner := b.ReceiverOf(k);
    assert k in w.minted ==> BackedAt(b, w.minted, w.balances, k);
    forall j | j in w.minted ensures BackedAt(b, w'.minted, w'.balances, j) {
      assert BackedAt(b, w.minted, w.balances, j);
      assert b.ReceiverOf(j) != owner;
    }
    assert BackedAt(b, w'.minted, w'.balances, k);
    forall a | Get(w'.balances, a) != 0 ensures ReceivesSome(b, w'.minted, a) {
      if a == owner {
        assert k in w'.minted;
      } else {
        assert Get(w.balances, a) != 0;
        assert ReceivesSome(b, w.minted, a);
        var j :| j in w.minted && j < |MINT_ALLOCATIONS| && b.ReceiverOf(j) == a;
        assert j in w'.minted;
      }
    }
  }

  lemma MessageStaysBacked(b: AddressBook, m: Msg, w: World, d: Delivery)
    requires Backed(b, w) && Accounted(w) && !MessageClashes(b, OnWallet, m, w, d)
    ensures Backed(b, Transmit(b, m, w, d)) && Accounted(Transmit(b, m, w, d))
  {
    if !d.Lost? && Accepts(b, m, w) {
      if m.Mint? {
        MintStaysBacked(b, m.k, w, Apply(b, m, w, d.Lands?));
        MintedSumAfterMint(w.minted, m.k, |MINT_ALLOCATIONS|);
      } else {
        OthersKeepLedger(b, m, w, d.Lands?);
      }
    }
  }

  lemma StepStaysBacked(b: AddressBook, t: Step, w: World, d: Delivery, blind: bool)
    requires Backed(b, w) && Accounted(w) && !StepClashes(b, OnWallet, t, w, d, blind)
    ensures Backed(b, Perform(b, t, w, d, blind).world) && Accounted(Perform(b, t, w, d, blind).world)
  {
    match Probe(b, t, Seen(w, blind))
    case Send(m) => MessageStaysBacked(b, m, w, d);
    case Save(_) =>
    case _ =>
  }

  lemma ArriveStaysBacked(b: AddressBook, a: Arrival, w: World)
    requires Backed(b, w) && Accounted(w) && !ArrivalClashes(b, OnWallet, a, w)
    ensures Backed(b, Arrive(b, a, w)) && Accounted(Arrive(b, a, w))
  {
    if a.MintArrives? && a.k in w.late {
      MessageStaysBacked(b, Mint(a.k), w.(late := w.late - multiset{a.k}), if a.relayed then Lands else LandsUnrelayed);
    }
  }

  lemma {:induction false} ArrivalsStayBacked(b: AddressBook, arrivals: seq<Arrival>, w: World)
    requires Backed(b, w) && Accounted(w) && !ArrivalsClash(b, OnWallet, arrivals, w)
    ensures Backed(b, Arrivals(b, arrivals, w)) && Accounted(Arrivals(b, arrivals, w))
    decreases |arrivals|
  {
    if arrivals != [] {
      ArriveStaysBacked(b, arrivals[0], w);
      ArrivalsStayBacked(b, arrivals[1..], Arrive(b, arrivals[0], w));
    }
  }

  lemma {:induction false} RunStaysBacked(b: AddressBook, steps: seq<Step>, w: World, fates: seq<Fate>)
    requires Backed(b, w) && Accounted(w) && !RunClashes(b, OnWallet, steps, w, fates)
    ensures Backed(b, Run(b, steps, w, fates).world) && Accounted(Run(b, steps, w, fates).world)
    decreases |steps|
  {
    if steps == [] || fates == [] || fates[0].Crash? {
    } else {
      var f := fates[0];
      ArrivalsStayBacked(b, f.arrivals, w);
      StepStaysBacked(b, steps[0], Arrivals(b, f.arrivals, w), f.delivery, f.blind);
      RunCons(b, steps, w, fates);
      var s := Play(b, steps[0], w, f);
      if s.ok { RunStaysBacked(b, steps[1..], s.world, fates[1..]); }
    }
  }

  lemma {:induction false} HistoryIsBacked(b: AddressBook, history: seq<Event>)
    requires b.Valid() && !HistoryClashes(b, OnWallet, history)
    ensures Backed(b, Reached(b, history)) && Accounted(Reached(b, history))
    decreases |history|
  {
    if history == [] {
      MintedSumOfNone(|MINT_ALLOCATIONS|);
    } else {
      var init, last := history[..|history| - 1], history[|history| - 1];
      HistoryIsBacked(b, init);
      match last
      case Launch(finalize, fates) => RunStaysBacked(b, Program(b, finalize), Reached(b, init), fates);
      case Arrives(a) => ArriveStaysBacked(b, a, Reached(b, init));
    }
  }

  /**
   * Full supply needs receivers that differ, because a mint looks at a whole owner balance: no history in which every
   * mint landed on an empty wallet reaches it otherwise.
   */
  lemma FullSupplyNeedsDistinctReceivers(b: AddressBook, history: seq<Event>)
    requires b.Valid() && !HistoryClashes(b, OnWallet, history)
    requires Reached(b, history).totalSupply == MAX_SUPPLY_NANO
    ensures b.DistinctReceivers()
  {
    var w := Reached(b, history);
    HistoryIsBacked(b, history);
    MintedSumIsCapped(w.minted);
    forall j, k | 0 <= j < k < |MINT_ALLOCATIONS| ensures b.ReceiverOf(j) != b.ReceiverOf(k) {
      assert BackedAt(b, w.minted, w.balances, k) && j in w.minted;
    }
  }

  // ----- A partly minted or partly relayed allocation -----

  /**
   * Allocation `k` cannot go on: its receiver holds something that is not the allocation; the emission is funded in
   * part, or the pool holds jettons of which no relay arrived.
   */
  ghost predicate Stuck(b: AddressBook, k: nat, w: World) {
    && k < |MINT_ALLOCATIONS|
    && var balance := Get(w.balances, b.ReceiverOf(k));
       if k != EMISSION then balance != 0 && balance != AmountOf(k)
       else w.emissionFunded < AmountOf(k) && (w.emissionFunded != 0 || balance != 0)
  }

  lemma MintLeavesStuck(b: AddressBook, j: nat, w: World, d: Delivery, blind: bool, k: nat)
    requires Stuck(b, k, w) && j < |MINT_ALLOCATIONS| && j != k && MintDecision(b, j, Seen(w, blind)) == Send(Mint(j))
    requires blind ==> b.ReceiverOf(j) != b.ReceiverOf(k)
    ensures Stuck(b, k, Transmit(b, Mint(j), w, d))
  {
  }

  /** The mint step of a stuck allocation is refused when it can read, and other steps leave it stuck. */
  lemma StepStaysStuck(b: AddressBook, t: Step, w: World, d: Delivery, blind: bool, k: nat)
    requires Stuck(b, k, w) && (blind ==> t != MintTo(k) && b.DistinctReceivers())
    ensures Stuck(b, k, Perform(b, t, w, d, blind).world) && Mint(k) !in Perform(b, t, w, d, blind).sent
    ensures t == MintTo(k) ==> !Perform(b, t, w, d, blind).ok
  {
    match Probe(b, t, Seen(w, blind))
    case Send(m) =>
      if m.Mint? {
        assert t == MintTo(m.k) && m.k < |MINT_ALLOCATIONS| && MintDecision(b, m.k, Seen(w, blind)) == Send(m);
        MintLeavesStuck(b, m.k, w, d, blind, k);
      } else if !d.Lost? && Accepts(b, m, w) {
        OthersKeepLedger(b, m, w, d.Lands?);
      }
    case Save(_) =>
    case _ =>
  }

  /** Nothing arrives during the launch, and wallet reads fail only where receivers differ. */
  ghost predicate Calm(b: AddressBook, fates: seq<Fate>) {
    forall i :: 0 <= i < |fates| && fates[i].Go? ==>
      fates[i].arrivals == [] && (fates[i].blind ==> b.DistinctReceivers())
  }

  lemma {:induction false} RunStaysStuck(b: AddressBook, steps: seq<Step>, w: World, fates: seq<Fate>, k: nat)
    requires Stuck(b, k, w) && Calm(b, fates) && MintTo(k) !in steps
    ensures var r := Run(b, steps, w, fates);
      Mint(k) !in r.sent && Stuck(b, k, r.world)
    decreases |steps|
  {
    if steps == [] || fates == [] || fates[0].Crash? {
    } else {
      var f := fates[0];
      StepStaysStuck(b, steps[0], w, f.delivery, f.blind, k);
      RunCons(b, steps, w, fates);
      var s := Play(b, steps[0], w, f);
      if s.ok {
        assert forall i :: 0 <= i < |fates[1..]| ==> fates[1..][i] == fates[i + 1];
        RunStaysStuck(b, steps[1..], s.world, fates[1..], k);
      }
    }
  }

  /** Only its own step sends a mint. */
  lemma {:induction false} MintsOfItsStep(b: AddressBook, steps: seq<Step>, w: World, fates: seq<Fate>, k: nat)
    requires MintTo(k) !in steps
    ensures Mint(k) !in Run(b, steps, w, fates).sent
    decreases |steps|
  {
    if steps == [] || fates == [] || fates[0].Crash? {
    } else {
      RunCons(b, steps, w, fates);
      var s := Play(b, steps[0], w, fates[0]);
      if s.ok { MintsOfItsStep(b, steps[1..], s.world, fates[1..], k); }
    }
  }

  /** With a failed read even a stuck mint is sent, unless it is the emission and part of it has been funded. */
  predicate SentUnread(k: nat, w: World) {
    k == EMISSION ==> StakingMasterC in w.live && w.emissionFunded == 0
  }

  lemma StuckStepIff(b: AddressBook, w: World, f: Fate, k: nat)
    requires Stuck(b, k, w) && f.Go? && f.arrivals == []
    ensures var s := Play(b, MintTo(k), w, f);
      && (Mint(k) in s.sent <==> f.blind && SentUnread(k, w))
      && (!(f.blind && SentUnread(k, w)) ==> !s.ok && s.world == w)
  {
  }

  /**
   * From any world with a stuck allocation, a launch in which nothing arrives mints it again exactly when it reaches
   * its mint step and the wallet read fails there (and no part of the emission is funded, if it is that); otherwise
   * the launch does not complete and the allocation stays stuck.
   */
  lemma PartialMintIsRefusedIff(b: AddressBook, front: seq<Step>, back: seq<Step>, w: World, fates: seq<Fate>, k: nat)
    requires Stuck(b, k, w) && Calm(b, fates) && MintTo(k) !in front && MintTo(k) !in back
    ensures var r := Run(b, front + [MintTo(k)] + back, w, fates);
      var before := Run(b, front, w, fates);
      var again := before.end == Done && |front| < |fates| && fates[|front|].Go? && fates[|front|].blind
                   && SentUnread(k, before.world);
      && (Mint(k) in r.sent <==> again)
      && (!again ==> r.end != Done && Stuck(b, k, r.world))
  {
    var i := |front|;
    var before := Run(b, front, w, fates);
    assert front + [MintTo(k)] + back == front + ([MintTo(k)] + back);
    RunAppend(b, front, [MintTo(k)] + back, w, fates);
    RunStaysStuck(b, front, w, fates, k);
    if before.end == Done {
      var left := fates[i..];
      if left != [] && left[0].Go? {
        assert left[0] == fates[i];
        StuckStepIff(b, before.world, fates[i], k);
        RunCons(b, [MintTo(k)] + back, before.world, left);
        assert ([MintTo(k)] + back)[1..] == back;
        var s := Play(b, MintTo(k), before.world, fates[i]);
        if s.ok { MintsOfItsStep(b, back, s.world, left[1..], k); }
      }
    }
  }

  /** The step list has one mint step for each allocation. */
  lemma ProgramAroundMint(b: AddressBook, finalize: bool, k: nat) returns (front: seq<Step>, back: seq<Step>)
    requires k < |MINT_ALLOCATIONS|
    ensures Program(b, finalize) == front + [MintTo(k)] + back && MintTo(k) !in front && MintTo(k) !in back
    ensures front == SetupSteps() + MintSteps()[..k]
  {
    var mints := MintSteps();
    var rest := FeeSteps(b) + AuthoritySteps(finalize) + (if finalize then FinalizeSteps(b) else [])
      + [Record(finalize)];
    front, back := SetupSteps() + mints[..k], mints[k + 1..] + rest;
    NoMintsElsewhere(b, finalize, MintTo(k));
    assert mints == mints[..k] + [MintTo(k)] + mints[k + 1..];
    AroundMint(SetupSteps(), mints, k, rest, FeeSteps(b), AuthoritySteps(finalize),
      if finalize then FinalizeSteps(b) else [], [Record(finalize)]);
  }

  lemma AroundMint(setup: seq<Step>, mints: seq<Step>, k: nat, rest: seq<Step>, fees: seq<Step>, auth: seq<Step>,
                   fin: seq<Step>, last: seq<Step>)
    requires k < |mints| && rest == fees + auth + fin + last
    ensures setup + mints + fees + auth + fin + last == setup + mints[..k] + [mints[k]] + (mints[k + 1..] + rest)
  {
    assert mints == mints[..k] + [mints[k]] + mints[k + 1..];
  }

  lemma NoMintsElsewhere(b: AddressBook, finalize: bool, t: Step)
    requires t.MintTo?
    ensures t !in SetupSteps() && t !in FeeSteps(b) && t !in AuthoritySteps(finalize) && t !in FinalizeSteps(b)
  {
  }

  /** The same of a whole launch. */
  lemma PartialMintIsRefused(b: AddressBook, finalize: bool, w: World, fates: seq<Fate>, k: nat)
    requires Stuck(b, k, w) && Calm(b, fates)
    ensures var r := Run(b, Program(b, finalize), w, fates);
      var i := |SetupSteps()| + k;
      var before := Run(b, SetupSteps() + MintSteps()[..k], w, fates);
      var again := before.end == Done && i < |fates| && fates[i].Go? && fates[i].blind && SentUnread(k, before.world);
      && (Mint(k) in r.sent <==> again)
      && (!again ==> r.end != Done && Stuck(b, k, r.world))
  {
    var front, back := ProgramAroundMint(b, finalize, k);
    PartialMintIsRefusedIff(b, front, back, w, fates, k);
  }

  // ----- What a completed finalizing run has verified -----

  ghost predicate IsCheck(t: Step) {
    t.VerifyOwner? || t.VerifyEmission? || t.VerifySupply?
  }

  /** Balances and supply do not shrink. */
  ghost predicate Grows(w: World, w': World) {
    (forall a :: Get(w.balances, a) <= Get(w'.balances, a)) && w.totalSupply <= w'.totalSupply
  }

  lemma ArriveGrows(b: AddressBook, a: Arrival, w: World)
    ensures Grows(w, Arrive(b, a, w))
    ensures w.emissionFunded == TOTAL_EMISSION_NANO ==> Arrive(b, a, w).emissionFunded == TOTAL_EMISSION_NANO
    ensures w.totalSupply == MAX_SUPPLY_NANO ==>
      Arrive(b, a, w).balances == w.balances && Arrive(b, a, w).totalSupply == w.totalSupply
  {
  }

  lemma {:induction false} ArrivalsGrow(b: AddressBook, arrivals: seq<Arrival>, w: World)
    ensures var w' := Arrivals(b, arrivals, w);
      && Grows(w, w')
      && (w.emissionFunded == TOTAL_EMISSION_NANO ==> w'.emissionFunded == TOTAL_EMISSION_NANO)
      && (w.totalSupply == MAX_SUPPLY_NANO ==> w'.balances == w.balances && w'.totalSupply == w.totalSupply)
    decreases |arrivals|
  {
    if arrivals != [] {
      ArriveGrows(b, arrivals[0], w);
      ArrivalsGrow(b, arrivals[1..], Arrive(b, arrivals[0], w));
    }
  }

  /** A check that passes has read the chain: a failed read shows zero, and no share is zero. */
  lemma PassedCheckIsRead(b: AddressBook, t: Step, w: World, d: Delivery, blind: bool)
    requires IsCheck(t) && (t.VerifyOwner? ==> t.expectedNano > 0) && Perform(b, t, w, d, blind).ok
    ensures Probe(b, t, w) == Skip && Perform(b, t, w, d, blind).world == w
  {
  }

  /** What a passed check says, and goes on saying. */
  ghost predicate Verified(t: Step, w: World) {
    && (t.VerifyOwner? ==> Get(w.balances, t.owner) >= t.expectedNano)
    && (t.VerifyEmission? ==> w.emissionFunded == TOTAL_EMISSION_NANO)
    && (t.VerifySupply? ==> w.totalSupply == MAX_SUPPLY_NANO)
  }

  /** The ledger of `w'` only grew, and a funded emission and a full supply stayed as they were. */
  ghost predicate LedgerGrows(w: World, w': World) {
    && Grows(w, w')
    && (w.emissionFunded == TOTAL_EMISSION_NANO ==> w'.emissionFunded == TOTAL_EMISSION_NANO)
    && (w.totalSupply == MAX_SUPPLY_NANO ==> w'.totalSupply == MAX_SUPPLY_NANO)
  }

  lemma {:induction false} ChecksHold(b: AddressBook, steps: seq<Step>, w: World, fates: seq<Fate>)
    requires Even(w) && forall i :: 0 <= i < |steps| ==>
      IsCheck(steps[i]) && (steps[i].VerifyOwner? ==> steps[i].expectedNano > 0)
    requires Run(b, steps, w, fates).end == Done
    ensures var w' := Run(b, steps, w, fates).world;
      && Even(w') && LedgerGrows(w, w')
      && forall i :: 0 <= i < |steps| ==> Verified(steps[i], w')
    decreases |steps|
  {
    if steps != [] {
      var f := fates[0];
      var w1 := Arrivals(b, f.arrivals, w);
      ArrivalsKeepLedger(b, f.arrivals, w);
      ArrivalsGrow(b, f.arrivals, w);
      RunCons(b, steps, w, fates);
      PassedCheckIsRead(b, steps[0], w1, f.delivery, f.blind);
      CheckIsVerified(b, steps[0], w1);
      ChecksHold(b, steps[1..], w1, fates[1..]);
      var w' := Run(b, steps, w, fates).world;
      StaysVerified(steps[0], w1, w');
      assert forall i :: 0 < i < |steps| ==> steps[i] == steps[1..][i - 1];
    }
  }

  lemma CheckIsVerified(b: AddressBook, t: Step, w: World)
    requires IsCheck(t) && Probe(b, t, w) == Skip
    ensures Verified(t, w)
  {
    assert AmountOf(EMISSION) == TOTAL_EMISSION_NANO;
  }

  lemma StaysVerified(t: Step, w: World, w': World)
    requires Verified(t, w) && LedgerGrows(w, w')
    ensures Verified(t, w')
  {
  }

  /** Every owner of the plan holds exactly its share. */
  ghost predicate Distributed(b: AddressBook, balances: Balances) {
    var plan := Aggregated(MINT_ALLOCATIONS, b.Resolve);
    forall i :: 0 <= i < |plan| ==> Get(balances, plan[i].owner) == plan[i].expectedNano
  }

  lemma {:induction false} SharesAreExact(balances: Balances, entries: seq<OwnerBalance>, owners: seq<Address>)
    requires |owners| == |entries|
    requires forall i :: 0 <= i < |owners| ==>
      owners[i] == entries[i].owner && Get(balances, owners[i]) >= entries[i].expectedNano
    ensures SumOver(balances, owners) >= TotalExpected(entries)
    ensures SumOver(balances, owners) == TotalExpected(entries) ==>
      forall i :: 0 <= i < |owners| ==> Get(balances, owners[i]) == entries[i].expectedNano
    decreases |owners|
  {
    if owners == [] {
    } else {
      SharesAreExact(balances, entries[..|entries| - 1], owners[..|owners| - 1]);
    }
  }

  /** Owners that hold at least their shares of a full supply hold exactly their shares. */
  lemma SharesFillTheSupply(b: AddressBook, balances: Balances)
    requires Total(balances) == MAX_SUPPLY_NANO
    requires var plan := Aggregated(MINT_ALLOCATIONS, b.Resolve);
      forall i :: 0 <= i < |plan| ==> Get(balances, plan[i].owner) >= plan[i].expectedNano
    ensures Distributed(b, balances)
  {
    var plan, owners := Aggregated(MINT_ALLOCATIONS, b.Resolve), Owners(MINT_ALLOCATIONS, b.Resolve);
    AggregationConserves(MINT_ALLOCATIONS, b.Resolve);
    PlanIsWholeSupply();
    SharesAreExact(balances, plan, owners);
    SumOverAtMostTotal(balances, owners);
  }

  /** Exact owner balances and a full supply leave nothing anywhere else. */
  lemma NothingOutsideTheOwners(b: AddressBook, balances: Balances)
    requires Distributed(b, balances) && Total(balances) == MAX_SUPPLY_NANO
    ensures forall a :: Get(balances, a) != 0 ==> exists k :: 0 <= k < |MINT_ALLOCATIONS| && b.ReceiverOf(k) == a
  {
    var plan, owners := Aggregated(MINT_ALLOCATIONS, b.Resolve), Owners(MINT_ALLOCATIONS, b.Resolve);
    AggregationConserves(MINT_ALLOCATIONS, b.Resolve);
    PlanIsWholeSupply();
    SharesAreExact(balances, plan, owners);
    SumOverAtMostTotal(balances, owners);
    forall a | Get(balances, a) != 0 ensures exists k :: 0 <= k < |MINT_ALLOCATIONS| && b.ReceiverOf(k) == a {
      assert a in owners;
      var k :| 0 <= k < |MINT_ALLOCATIONS| && b.Resolve(MINT_ALLOCATIONS[k].receiver) == a;
      assert b.ReceiverOf(k) == a;
    }
  }

  function BurnIf(c: bool, burn: nat): nat { if c then burn * 1_000_000_000 else 0 }

  /** Every address holds what the mint plan gives to it, field by field of the book, and nothing else. */
  ghost predicate HoldsPlan(b: AddressBook, balances: Balances) {
    forall a :: Get(balances, a) ==
      BurnIf(a == b.vestingDeveloper, 7) + BurnIf(a == b.airdropHolder, 200) + BurnIf(a == b.stakingPool, 300)
      + BurnIf(a == b.vestingEcosystem, 150) + BurnIf(a == b.liquidityHolder, 300) + BurnIf(a == b.vestingReserve, 43)
  }

  lemma ExpectedByField(b: AddressBook, a: Address)
    ensures ExpectedFor(MINT_ALLOCATIONS, b.Resolve, a) ==
      BurnIf(a == b.vestingDeveloper, 7) + BurnIf(a == b.airdropHolder, 200) + BurnIf(a == b.stakingPool, 300)
      + BurnIf(a == b.vestingEcosystem, 150) + BurnIf(a == b.liquidityHolder, 300) + BurnIf(a == b.vestingReserve, 43)
  {
    var p := MINT_ALLOCATIONS;
    assert p[..5] == p[..|p| - 1] && p[..5][..4] == p[..4] && p[..4][..3] == p[..3] && p[..3][..2] == p[..2];
    assert p[..2][..1] == p[..1] && p[..1][..0] == [];
    assert ExpectedFor(p[..1], b.Resolve, a) == BurnIf(a == b.vestingDeveloper, 7);
    assert ExpectedFor(p[..2], b.Resolve, a) == ExpectedFor(p[..1], b.Resolve, a) + BurnIf(a == b.airdropHolder, 200);
    assert ExpectedFor(p[..3], b.Resolve, a) == ExpectedFor(p[..2], b.Resolve, a) + BurnIf(a == b.stakingPool, 300);
    assert ExpectedFor(p[..4], b.Resolve, a)
      == ExpectedFor(p[..3], b.Resolve, a) + BurnIf(a == b.vestingEcosystem, 150);
    assert ExpectedFor(p[..5], b.Resolve, a) == ExpectedFor(p[..4], b.Resolve, a) + BurnIf(a == b.liquidityHolder, 300);
  }

  lemma DistributedByField(b: AddressBook, balances: Balances)
    requires Distributed(b, balances) && Total(balances) == MAX_SUPPLY_NANO
    ensures HoldsPlan(b, balances)
  {
    var plan, owners := Aggregated(MINT_ALLOCATIONS, b.Resolve), Owners(MINT_ALLOCATIONS, b.Resolve);
    NothingOutsideTheOwners(b, balances);
    forall a ensures Get(balances, a) == ExpectedFor(MINT_ALLOCATIONS, b.Resolve, a) {
      if a in owners {
        var i :| 0 <= i < |owners| && owners[i] == a;
        assert plan[i] == EntryFor(MINT_ALLOCATIONS, b.Resolve, a);
      } else {
        NothingForStranger(MINT_ALLOCATIONS, b.Resolve, a);
        HoldsNothing(b, balances, a);
      }
    }
    forall a { ExpectedByField(b, a); }
  }

  lemma HoldsNothing(b: AddressBook, balances: Balances, a: Address)
    requires a !in Owners(MINT_ALLOCATIONS, b.Resolve)
    requires Get(balances, a) != 0 ==> exists k :: 0 <= k < |MINT_ALLOCATIONS| && b.ReceiverOf(k) == a
    ensures Get(balances, a) == 0
  {
  }

  /** No owner of the plan has a share of zero. */
  lemma SharesArePositive(b: AddressBook, i: nat)
    requires i < |Aggregated(MINT_ALLOCATIONS, b.Resolve)|
    ensures Aggregated(MINT_ALLOCATIONS, b.Resolve)[i].expectedNano > 0
  {
    var owner := Owners(MINT_ALLOCATIONS, b.Resolve)[i];
    assert owner in Owners(MINT_ALLOCATIONS, b.Resolve);
    var k :| 0 <= k < |MINT_ALLOCATIONS| && b.Resolve(MINT_ALLOCATIONS[k].receiver) == owner;
    assert AmountOf(k) > 0;
    ShareIncludes(MINT_ALLOCATIONS, b.Resolve, owner, k);
  }

  lemma {:induction false} ShareIncludes(plan: seq<Allocation>, resolve: Receiver -> Address, owner: Address, k: nat)
    requires k < |plan| && resolve(plan[k].receiver) == owner
    ensures ExpectedFor(plan, resolve, owner) >= plan[k].burnAmount * NANO
    decreases |plan|
  {
    var n := |plan| - 1;
    if k < n {
      ShareIncludes(plan[..n], resolve, owner, k);
    }
  }

  /** From a full supply the last three steps take the authority away and leave the ledger alone. */
  lemma StopAndRevoke(b: AddressBook, t: Step, w: World, f: Fate)
    requires f.Go? && (t == StopMinting || t == RevokeAdmin || t == Record(true)) && Full(w)
    ensures var s := Play(b, t, w, f);
      s.ok ==>
        && Full(s.world) && s.world.balances == w.balances
        && s.world.mintable == (if t == StopMinting then false else w.mintable)
        && s.world.admin == (if t == RevokeAdmin then REVOKED_ADMIN else w.admin)
        && s.world.record == (if t == Record(true) then Some(true) else w.record)
  {
    ArrivalsGrow(b, f.arrivals, w);
    ArrivalsKeepAuthority(b, f.arrivals, w);
    AuthorityStep(b, t, Arrivals(b, f.arrivals, w), f.delivery, f.blind);
  }

  lemma AuthorityStep(b: AddressBook, t: Step, w: World, d: Delivery, blind: bool)
    requires t == StopMinting || t == RevokeAdmin || t == Record(true)
    ensures var s := Perform(b, t, w, d, blind);
      var stopped, revoked := w.(mintable := false), w.(admin := REVOKED_ADMIN);
      s.ok ==>
        s.world == if t == StopMinting then stopped else if t == RevokeAdmin then revoked else w.(record := Some(true))
  {
  }

  ghost predicate Full(w: World) {
    w.totalSupply == MAX_SUPPLY_NANO && w.emissionFunded == TOTAL_EMISSION_NANO
  }

  lemma RevokeTail(b: AddressBook, w: World, fates: seq<Fate>)
    requires Full(w) && Run(b, [StopMinting, RevokeAdmin, Record(true)], w, fates).end == Done
    ensures var w' := Run(b, [StopMinting, RevokeAdmin, Record(true)], w, fates).world;
      Full(w') && w'.balances == w.balances && !w'.mintable && w'.admin == REVOKED_ADMIN && w'.record == Some(true)
  {
    var steps := [StopMinting, RevokeAdmin, Record(true)];
    assert steps[1..] == [RevokeAdmin, Record(true)] && steps[1..][1..] == [Record(true)] && steps[1..][1..][1..] == [];
    RunCons(b, steps, w, fates);
    StopAndRevoke(b, StopMinting, w, fates[0]);
    var w1 := Play(b, StopMinting, w, fates[0]).world;
    RunCons(b, steps[1..], w1, fates[1..]);
    StopAndRevoke(b, RevokeAdmin, w1, fates[1..][0]);
    var w2 := Play(b, RevokeAdmin, w1, fates[1..][0]).world;
    RunCons(b, steps[1..][1..], w2, fates[1..][1..]);
    StopAndRevoke(b, Record(true), w2, fates[1..][1..][0]);
  }

  lemma {:induction false} RunStaysEven(b: AddressBook, steps: seq<Step>, w: World, fates: seq<Fate>)
    requires Even(w)
    ensures Even(Run(b, steps, w, fates).world)
    decreases |steps|
  {
    if steps == [] || fates == [] || fates[0].Crash? {
    } else {
      var f := fates[0];
      ArrivalsKeepLedger(b, f.arrivals, w);
      StepKeepsLedger(b, steps[0], Arrivals(b, f.arrivals, w), f.delivery, f.blind);
      RunCons(b, steps, w, fates);
      var s := Play(b, steps[0], w, f);
      if s.ok { RunStaysEven(b, steps[1..], s.world, fates[1..]); }
    }
  }

  /** The world in which the checks of a completed finalizing run have passed. */
  lemma CheckedRun(b: AddressBook, head: seq<Step>, checks: seq<Step>, tail: seq<Step>, w: World, fates: seq<Fate>)
    returns (w1: World)
    requires Even(w) && tail == [StopMinting, RevokeAdmin, Record(true)] && VerifyEmission in checks
    requires VerifySupply in checks
    requires forall i :: 0 <= i < |checks| ==>
      IsCheck(checks[i]) && (checks[i].VerifyOwner? ==> checks[i].expectedNano > 0)
    requires Run(b, head + (checks + tail), w, fates).end == Done
    ensures Even(w1) && Full(w1) && forall i :: 0 <= i < |checks| ==> Verified(checks[i], w1)
    ensures var w' := Run(b, head + (checks + tail), w, fates).world;
      Full(w') && w'.balances == w1.balances && !w'.mintable && w'.admin == REVOKED_ADMIN && w'.record == Some(true)
  {
    RunAppend(b, head, checks + tail, w, fates);
    RunStaysEven(b, head, w, fates);
    var w0 := Run(b, head, w, fates).world;
    RunAppend(b, checks, tail, w0, fates[|head|..]);
    ChecksHold(b, checks, w0, fates[|head|..]);
    w1 := Run(b, checks, w0, fates[|head|..]).world;
    assert Verified(VerifyEmission, w1) && Verified(VerifySupply, w1);
    RevokeTail(b, w1, fates[|head|..][|checks|..]);
  }

  lemma ChecksAreChecks(b: AddressBook, i: nat)
    requires i < |Checks(b)|
    ensures IsCheck(Checks(b)[i]) && (Checks(b)[i].VerifyOwner? ==> Checks(b)[i].expectedNano > 0)
  {
    if i < |VerifySteps(b)| {
      assert Checks(b)[i] == VerifySteps(b)[i];
      SharesArePositive(b, i);
    }
  }

  lemma ChecksMeanDistributed(b: AddressBook, w: World)
    requires Even(w) && Full(w) && forall i :: 0 <= i < |Checks(b)| ==> Verified(Checks(b)[i], w)
    ensures Distributed(b, w.balances)
  {
    var plan := Aggregated(MINT_ALLOCATIONS, b.Resolve);
    forall i | 0 <= i < |plan| ensures Get(w.balances, plan[i].owner) >= plan[i].expectedNano {
      assert Checks(b)[i] == VerifyOwner(plan[i].owner, plan[i].expectedNano);
    }
    SharesFillTheSupply(b, w.balances);
  }

  /**
   * A finalizing run that completes, whatever happened before, whichever messages were lost, whichever reads failed
   * and whatever arrived meanwhile, leaves the exact distribution, the funded emission and the full supply behind a
   * closed mint and a revoked admin.
   */
  lemma FinalizedMeansDistributed(b: AddressBook, w: World, fates: seq<Fate>)
    requires Even(w)
    requires Run(b, Program(b, true), w, fates).end == Done
    ensures var w' := Run(b, Program(b, true), w, fates).world;
      && Distributed(b, w'.balances) && HoldsPlan(b, w'.balances)
      && w'.totalSupply == Total(w'.balances) == MAX_SUPPLY_NANO
      && (forall a :: Get(w'.balances, a) != 0 ==> exists k :: 0 <= k < |MINT_ALLOCATIONS| && b.ReceiverOf(k) == a)
      && w'.emissionFunded == AmountOf(EMISSION)
      && !w'.mintable && w'.admin == REVOKED_ADMIN && w'.record == Some(true)
  {
    ProgramSplit(b);
    var n := |VerifySteps(b)|;
    assert Checks(b)[n] == VerifyEmission && Checks(b)[n + 1] == VerifySupply;
    forall i | 0 <= i < |Checks(b)|
      ensures IsCheck(Checks(b)[i]) && (Checks(b)[i].VerifyOwner? ==> Checks(b)[i].expectedNano > 0)
    {
      ChecksAreChecks(b, i);
    }
    var w1 := CheckedRun(b, SetupSteps() + MintSteps() + FeeSteps(b) + AuthoritySteps(true), Checks(b),
      [StopMinting, RevokeAdmin, Record(true)], w, fates);
    ChecksMeanDistributed(b, w1);
    NothingOutsideTheOwners(b, w1.balances);
    DistributedByField(b, w1.balances);
    RunStaysEven(b, Program(b, true), w, fates);
    assert AmountOf(EMISSION) == TOTAL_EMISSION_NANO;
  }
}
