/** Everything a launch sends to an untouched chain, message by message. */
module BootstrapMessages {
  import opened Common
  import opened Sums
  import opened Allocations
  import opened Chain
  import opened Script
  import opened BootstrapSafety
  import opened BootstrapConvergence

  /** The message of a step that is not applied yet; checks and records send none. */
  function MessageOf(b: AddressBook, t: Step): seq<Msg> {
    match t
    case Deploy(c) => [DeployContract(c)]
    case Wire => [WireStakingMaster(b.stakingMaster)]
    case SetJettonWallet => [SetMasterJettonWallet(b.masterJettonWallet)]
    case PointGovernor => [SetGovernor(b.governor)]
    case MintTo(k) => [Mint(k)]
    case FeeDestinations => [SetFeeDestinations(b.stakingPool, b.treasury)]
    case Exclude(h) => [AddExcluded(h)]
    case Sync(o) => [SyncFeeConfigToWallet(o)]
    case HandOverAdmin => [ChangeOwner(b.timelock)]
    case HandOverTimelock => [SetTimelock(b.timelock)]
    case StopMinting => [Msg.CloseMint]
    case RevokeAdmin => [ChangeOwner(REVOKED_ADMIN)]
    case _ => []
  }

  ghost predicate Silent(t: Step) {
    t.RequireActive? || IsCheck(t) || t.Record?
  }

  lemma SilentStepsSend(b: AddressBook, t: Step, w: World)
    requires Silent(t)
    ensures Perform(b, t, w, Lands, false).sent == [] == MessageOf(b, t)
  {
  }

  lemma NewSetupSends(b: AddressBook, t: Step, done: set<Step>)
    requires b.DistinctReceivers() && b.Valid() && t !in done && Reads(t) <= LiveIn(done)
    requires t.Deploy? || t.Wire? || t.SetJettonWallet? || t.PointGovernor? || t.FeeDestinations?
    ensures Perform(b, t, WorldOf(b, done), Lands, false).sent == MessageOf(b, t)
  {
  }

  lemma NewListedSends(b: AddressBook, t: Step, done: set<Step>)
    requires b.DistinctReceivers() && t !in done && Reads(t) <= LiveIn(done) && (t.Exclude? || t.Sync?)
    ensures Perform(b, t, WorldOf(b, done), Lands, false).sent == MessageOf(b, t)
  {
  }

  lemma NewMintSends(b: AddressBook, k: nat, done: set<Step>)
    requires b.DistinctReceivers() && MintTo(k) !in done && Reads(MintTo(k)) <= LiveIn(done) && k < |MINT_ALLOCATIONS|
    ensures Perform(b, MintTo(k), WorldOf(b, done), Lands, false).sent == [Mint(k)]
  {
    BalanceIn(b, done, k);
  }

  lemma NewAuthoritySends(b: AddressBook, t: Step, done: set<Step>)
    requires b.DistinctReceivers() && b.Valid() && t !in done && Reads(t) <= LiveIn(done) && Ahead(t, done)
    requires t.HandOverAdmin? || t.HandOverTimelock? || t.StopMinting? || t.RevokeAdmin?
    requires t.StopMinting? || t.RevokeAdmin? ==> HandOverAdmin !in done
    ensures Perform(b, t, WorldOf(b, done), Lands, false).sent == MessageOf(b, t)
  {
  }

  /** At its place in the list, a step that is not applied sends its message. */
  lemma NewStepSends(b: AddressBook, finalize: bool, t: Step, done: set<Step>)
    requires b.DistinctReceivers() && b.Valid() && Upto(b, finalize, t, done) && Listed(b, finalize, t)
    requires t !in done || Silent(t)
    ensures Perform(b, t, WorldOf(b, done), Lands, false).sent == MessageOf(b, t)
  {
    UptoIsBehind(b, finalize, t, done);
    UptoIsAhead(b, finalize, t, done);
    if Silent(t) {
      SilentStepsSend(b, t, WorldOf(b, done));
    } else if t.MintTo? {
      NewMintSends(b, t.k, done);
    } else if t.Exclude? || t.Sync? {
      NewListedSends(b, t, done);
    } else if t.HandOverAdmin? || t.HandOverTimelock? || t.StopMinting? || t.RevokeAdmin? {
      NewAuthoritySends(b, t, done);
    } else {
      NewSetupSends(b, t, done);
    }
  }

  // ----- No step twice -----

  ghost predicate NoRepeats(p: seq<Step>) {
    forall i, j :: 0 <= i < j < |p| && p[i] == p[j] ==> Silent(p[i])
  }

  lemma NoRepeatsAppend(p: seq<Step>, q: seq<Step>, lo: nat, m: nat, n: nat, hi: nat)
    requires NoRepeats(p) && NoRepeats(q) && Ranked(p, lo, m) && Ranked(q, n, hi) && lo <= m < n <= hi
    ensures NoRepeats(p + q) && Ranked(p + q, lo, hi)
  {
    RankedAppend(p, q, lo, m, n, hi);
  }

  /** The owners of the fee set-up are different accounts. */
  ghost predicate DistinctOwners(b: AddressBook) {
    Distinct(b.FeeConfigOwners())
  }

  lemma ContractsNeverRepeat(cs: seq<Contract>)
    requires Distinct(cs)
    ensures NoRepeats(DeploySteps(cs))
  {
  }

  lemma PairNeverRepeats(t: Step, u: Step)
    requires t != u
    ensures NoRepeats([t]) && NoRepeats([t, u])
  {
  }

  lemma ContractsAreRanked()
    ensures Ranked(DeploySteps(CORE_CONTRACTS), 0, 0) && Ranked(DeploySteps(GOVERNANCE_CONTRACTS), 3, 3)
    ensures Ranked(DeploySteps(VESTING_CONTRACTS), 5, 5)
    ensures Ranked([Wire, SetJettonWallet], 1, 2) && Ranked([PointGovernor], 4, 4)
  {
  }

  lemma SetupNeverRepeats()
    ensures NoRepeats(SetupSteps()) && Ranked(SetupSteps(), 0, 5)
  {
    var a, g, v := DeploySteps(CORE_CONTRACTS), DeploySteps(GOVERNANCE_CONTRACTS), DeploySteps(VESTING_CONTRACTS);
    ContractsNeverRepeat(CORE_CONTRACTS);
    ContractsNeverRepeat(GOVERNANCE_CONTRACTS);
    ContractsNeverRepeat(VESTING_CONTRACTS);
    ContractsAreRanked();
    PairNeverRepeats(Wire, SetJettonWallet);
    PairNeverRepeats(PointGovernor, Wire);
    FiveNeverRepeat(a, [Wire, SetJettonWallet], g, [PointGovernor], v);
  }

  lemma FiveNeverRepeat(a: seq<Step>, w: seq<Step>, g: seq<Step>, p: seq<Step>, v: seq<Step>)
    requires NoRepeats(a) && NoRepeats(w) && NoRepeats(g) && NoRepeats(p) && NoRepeats(v)
    requires Ranked(a, 0, 0) && Ranked(w, 1, 2) && Ranked(g, 3, 3) && Ranked(p, 4, 4) && Ranked(v, 5, 5)
    ensures NoRepeats(a + w + g + p + v) && Ranked(a + w + g + p + v, 0, 5)
  {
    NoRepeatsAppend(a, w, 0, 0, 1, 2);
    NoRepeatsAppend(a + w, g, 0, 2, 3, 3);
    NoRepeatsAppend(a + w + g, p, 0, 3, 4, 4);
    NoRepeatsAppend(a + w + g + p, v, 0, 4, 5, 5);
  }

  lemma OwnersNeverRepeat(owners: seq<Address>)
    requires Distinct(owners)
    ensures NoRepeats(ExcludeSteps(owners)) && NoRepeats(SyncSteps(owners)) && NoRepeats(ActiveSteps(owners))
    ensures Ranked(ExcludeSteps(owners), 8, 8) && Ranked(SyncSteps(owners), 9, 9) && Ranked(ActiveSteps(owners), 10, 10)
  {
  }

  lemma FeesNeverRepeat(b: AddressBook)
    requires DistinctOwners(b)
    ensures NoRepeats(FeeSteps(b)) && Ranked(FeeSteps(b), 7, 10)
  {
    var ex, sync := ExcludeSteps(b.ExcludedOwners()), SyncSteps(b.FeeConfigOwners());
    assert b.ExcludedOwners() == b.FeeConfigOwners()[..7];
    OwnersNeverRepeat(b.ExcludedOwners());
    OwnersNeverRepeat(b.FeeConfigOwners());
    NoRepeatsAppend([FeeDestinations], ex, 7, 7, 8, 8);
    NoRepeatsAppend([FeeDestinations] + ex, sync, 7, 8, 9, 9);
    NoRepeatsAppend([FeeDestinations] + ex + sync, ActiveSteps(b.FeeConfigOwners()), 7, 9, 10, 10);
  }

  /** The finalizing steps are checks followed by the two that end all minting. */
  lemma FinalizingParts(b: AddressBook) returns (checks: seq<Step>)
    ensures FinalizeSteps(b) == checks + [StopMinting, RevokeAdmin]
    ensures forall i :: 0 <= i < |checks| ==> IsCheck(checks[i])
  {
    checks := VerifySteps(b) + [VerifyEmission, VerifySupply];
  }

  lemma FinalizeNeverRepeats(b: AddressBook)
    ensures NoRepeats(FinalizeSteps(b)) && Ranked(FinalizeSteps(b), 13, 15)
  {
    var checks := FinalizingParts(b);
    SilentNeverRepeat(checks);
    PairNeverRepeats(StopMinting, RevokeAdmin);
    NoRepeatsAppend(checks, [StopMinting, RevokeAdmin], 13, 13, 14, 15);
  }

  lemma SilentNeverRepeat(p: seq<Step>)
    requires forall i :: 0 <= i < |p| ==> IsCheck(p[i])
    ensures NoRepeats(p) && Ranked(p, 13, 13)
  {
  }

  lemma ProgramNeverRepeats(b: AddressBook, finalize: bool)
    requires DistinctOwners(b)
    ensures NoRepeats(Program(b, finalize))
  {
    SetupNeverRepeats();
    FeesNeverRepeat(b);
    FinalizeNeverRepeats(b);
    var fin := if finalize then FinalizeSteps(b) else [];
    SixNeverRepeat(SetupSteps(), MintSteps(), FeeSteps(b), AuthoritySteps(finalize), fin, [Record(finalize)]);
  }

  lemma SixNeverRepeat(s: seq<Step>, m: seq<Step>, f: seq<Step>, a: seq<Step>, fin: seq<Step>, last: seq<Step>)
    requires NoRepeats(s) && NoRepeats(m) && NoRepeats(f) && NoRepeats(a) && NoRepeats(fin) && NoRepeats(last)
    requires Ranked(s, 0, 5) && Ranked(m, 6, 6) && Ranked(f, 7, 10) && Ranked(a, 11, 12) && Ranked(fin, 13, 15)
    requires Ranked(last, 16, 16)
    ensures NoRepeats(s + m + f + a + fin + last)
  {
    NoRepeatsAppend(s, m, 0, 5, 6, 6);
    NoRepeatsAppend(s + m, f, 0, 6, 7, 10);
    NoRepeatsAppend(s + m + f, a, 0, 10, 11, 12);
    NoRepeatsAppend(s + m + f + a, fin, 0, 12, 13, 15);
    NoRepeatsAppend(s + m + f + a + fin, last, 0, 15, 16, 16);
  }

  // ----- The messages of a list -----

  function Messages(b: AddressBook, p: seq<Step>): seq<Msg> {
    if p == [] then [] else MessageOf(b, p[0]) + Messages(b, p[1..])
  }

  lemma {:induction false} MessagesAppend(b: AddressBook, p: seq<Step>, q: seq<Step>)
    ensures Messages(b, p + q) == Messages(b, p) + Messages(b, q)
    decreases |p|
  {
    if p == [] {
      assert p + q == q;
    } else {
      assert (p + q)[1..] == p[1..] + q;
      MessagesAppend(b, p[1..], q);
    }
  }

  /** Steps of one message each. */
  lemma {:induction false} OneEach(b: AddressBook, p: seq<Step>)
    requires forall i :: 0 <= i < |p| ==> |MessageOf(b, p[i])| == 1
    ensures |Messages(b, p)| == |p| && forall i :: 0 <= i < |p| ==> Messages(b, p)[i] == MessageOf(b, p[i])[0]
    decreases |p|
  {
    if p != [] { OneEach(b, p[1..]); }
  }

  lemma {:induction false} NoneEach(b: AddressBook, p: seq<Step>)
    requires forall i :: 0 <= i < |p| ==> Silent(p[i])
    ensures Messages(b, p) == []
    decreases |p|
  {
    if p != [] { NoneEach(b, p[1..]); }
  }

  /** At its place, the step sends its own message. */
  ghost predicate SendsItsOwn(b: AddressBook, t: Step, w: World) {
    Perform(b, t, w, Lands, false).sent == MessageOf(b, t)
  }

  lemma FreshStepFirst(b: AddressBook, t: Step, rest: seq<Step>, w: World, w': World)
    requires StepsTo(b, t, w, w', false) && SendsItsOwn(b, t, w)
    ensures Run(b, [t] + rest, w, Smooth(|rest| + 1)).sent == MessageOf(b, t) + Run(b, rest, w', Smooth(|rest|)).sent
  {
    assert ([t] + rest)[1..] == rest;
    RunFirst(b, [t] + rest, w, |rest| + 1);
  }

  /** From the world before step `i` an uninterrupted run sends the messages of the steps that are left. */
  lemma {:induction false} FreshRunSends(b: AddressBook, p: seq<Step>, ws: seq<World>, i: nat)
    requires |ws| == |p| + 1 && i <= |p| && SteadyFrom(b, p, ws, i)
    requires forall j :: 0 <= j < |p| ==> SendsItsOwn(b, p[j], ws[j])
    ensures Run(b, p[i..], ws[i], Smooth(|p| - i)).sent == Messages(b, p[i..])
    decreases |p| - i
  {
    if i < |p| {
      FirstOfSteady(b, p, ws, i);
      FreshRunSends(b, p, ws, i + 1);
      MessagesFirst(b, p[i], p[i + 1..]);
      FreshStepFirst(b, p[i], p[i + 1..], ws[i], ws[i + 1]);
      assert p[i..] == [p[i]] + p[i + 1..];
    } else {
      NothingLeft(b, p[i..], ws[i]);
    }
  }

  lemma FirstOfSteady(b: AddressBook, p: seq<Step>, ws: seq<World>, i: nat)
    requires |ws| == |p| + 1 && i < |p| && SteadyFrom(b, p, ws, i)
    ensures StepsTo(b, p[i], ws[i], ws[i + 1], false) && SteadyFrom(b, p, ws, i + 1)
  {
    assert StepsTo(b, p[i], ws[i], ws[Max(i, i + 1)], i < i);
  }

  lemma MessagesFirst(b: AddressBook, t: Step, rest: seq<Step>)
    ensures Messages(b, [t] + rest) == MessageOf(b, t) + Messages(b, rest)
  {
    assert ([t] + rest)[1..] == rest;
  }

  lemma NothingLeft(b: AddressBook, p: seq<Step>, w: World)
    requires p == []
    ensures Run(b, p, w, Smooth(0)).sent == [] == Messages(b, p)
  {
  }

  lemma FreshStepSends(b: AddressBook, finalize: bool, p: seq<Step>, i: nat)
    requires b.DistinctReceivers() && b.Valid() && p == Program(b, finalize) && NoRepeats(p) && i < |p|
    ensures SendsItsOwn(b, p[i], WorldOf(b, DoneBy(p, i)))
  {
    ProgramIsRanked(b, finalize);
    forall u ensures u in p <==> Listed(b, finalize, u) { ProgramMembers(b, finalize, u); }
    RankedIsUpto(b, finalize, p, i, i);
    assert p[i] in p;
    if p[i] in DoneBy(p, i) { var j := StepAt(p, i, p[i]); }
    NewStepSends(b, finalize, p[i], DoneBy(p, i));
  }

  lemma WholeRunSends(b: AddressBook, p: seq<Step>, ws: seq<World>)
    requires |ws| == |p| + 1 && SteadyFrom(b, p, ws, 0)
    requires forall j :: 0 <= j < |p| ==> SendsItsOwn(b, p[j], ws[j])
    ensures Run(b, p, ws[0], Smooth(|p|)).sent == Messages(b, p)
  {
    FreshRunSends(b, p, ws, 0);
    assert p[0..] == p;
  }

  /** The deployments and the wiring, in order. */
  function SetupMessages(b: AddressBook): seq<Msg> {
    [DeployContract(JettonMasterC), DeployContract(TreasuryC), DeployContract(StakingPoolC),
     DeployContract(StakingLockC), DeployContract(StakingMasterC),
     WireStakingMaster(b.stakingMaster), SetMasterJettonWallet(b.masterJettonWallet),
     DeployContract(TimelockC), DeployContract(GovernorC), SetGovernor(b.governor),
     DeployContract(VestingDeveloperC), DeployContract(VestingEcosystemC), DeployContract(VestingReserveC)]
  }

  function FeeMessages(b: AddressBook): seq<Msg> {
    [SetFeeDestinations(b.stakingPool, b.treasury),
     AddExcluded(b.treasury), AddExcluded(b.stakingPool), AddExcluded(b.stakingMaster),
     AddExcluded(b.vestingDeveloper), AddExcluded(b.vestingEcosystem), AddExcluded(b.vestingReserve),
     AddExcluded(b.liquidityHolder),
     SyncFeeConfigToWallet(b.treasury), SyncFeeConfigToWallet(b.stakingPool), SyncFeeConfigToWallet(b.stakingMaster),
     SyncFeeConfigToWallet(b.vestingDeveloper), SyncFeeConfigToWallet(b.vestingEcosystem),
     SyncFeeConfigToWallet(b.vestingReserve), SyncFeeConfigToWallet(b.liquidityHolder),
     SyncFeeConfigToWallet(b.airdropHolder)]
  }

  lemma SetupIsSent(b: AddressBook)
    ensures Messages(b, SetupSteps()) == SetupMessages(b)
  {
    var p := SetupSteps();
    assert forall i :: 0 <= i < |p| ==> |MessageOf(b, p[i])| == 1;
    OneEach(b, p);
    assert |p| == 13;
  }

  lemma ExclusionsAreSent(b: AddressBook, owners: seq<Address>)
    ensures |Messages(b, ExcludeSteps(owners))| == |owners| == |Messages(b, SyncSteps(owners))|
    ensures forall i :: 0 <= i < |owners| ==> Messages(b, ExcludeSteps(owners))[i] == AddExcluded(owners[i])
    ensures forall i :: 0 <= i < |owners| ==> Messages(b, SyncSteps(owners))[i] == SyncFeeConfigToWallet(owners[i])
    ensures Messages(b, ActiveSteps(owners)) == []
  {
    OneEach(b, ExcludeSteps(owners));
    OneEach(b, SyncSteps(owners));
    NoneEach(b, ActiveSteps(owners));
  }

  lemma FeesAreSent(b: AddressBook)
    ensures Messages(b, FeeSteps(b)) == FeeMessages(b)
  {
    var ex, sync, active :=
      ExcludeSteps(b.ExcludedOwners()), SyncSteps(b.FeeConfigOwners()), ActiveSteps(b.FeeConfigOwners());
    ExclusionsAreSent(b, b.ExcludedOwners());
    ExclusionsAreSent(b, b.FeeConfigOwners());
    OneEach(b, [FeeDestinations]);
    FourMessages(b, [FeeDestinations], ex, sync, active);
    FeeMessagesSplit(b, Messages(b, [FeeDestinations]), Messages(b, ex), Messages(b, sync));
  }

  lemma FourMessages(b: AddressBook, p: seq<Step>, q: seq<Step>, r: seq<Step>, s: seq<Step>)
    ensures Messages(b, p + q + r + s) == Messages(b, p) + Messages(b, q) + Messages(b, r) + Messages(b, s)
  {
    MessagesAppend(b, p, q);
    MessagesAppend(b, p + q, r);
    MessagesAppend(b, p + q + r, s);
  }

  lemma FeeMessagesSplit(b: AddressBook, first: seq<Msg>, ex: seq<Msg>, sync: seq<Msg>)
    requires first == [SetFeeDestinations(b.stakingPool, b.treasury)]
    requires |ex| == 7 && forall i :: 0 <= i < 7 ==> ex[i] == AddExcluded(b.ExcludedOwners()[i])
    requires |sync| == 8 && forall i :: 0 <= i < 8 ==> sync[i] == SyncFeeConfigToWallet(b.FeeConfigOwners()[i])
    ensures first + ex + sync + [] == FeeMessages(b)
  {
  }

  lemma MintsAreSent(b: AddressBook)
    ensures Messages(b, MintSteps()) == [Mint(0), Mint(1), Mint(2), Mint(3), Mint(4), Mint(5)]
  {
    OneEach(b, MintSteps());
  }

  lemma FinalizingIsSent(b: AddressBook)
    ensures Messages(b, FinalizeSteps(b)) == [Msg.CloseMint, ChangeOwner(REVOKED_ADMIN)]
  {
    var checks := FinalizingParts(b);
    MessagesAppend(b, checks, [StopMinting, RevokeAdmin]);
    NoneEach(b, checks);
    TwoMessages(b, StopMinting, RevokeAdmin);
  }

  lemma TwoMessages(b: AddressBook, t: Step, u: Step)
    ensures Messages(b, [t, u]) == MessageOf(b, t) + MessageOf(b, u)
  {
    MessagesFirst(b, t, [u]);
    MessagesFirst(b, u, []);
    assert [t] + [u] == [t, u] && [u] + [] == [u];
  }

  lemma AuthorityIsSent(b: AddressBook, finalize: bool)
    ensures Messages(b, AuthoritySteps(finalize)) ==
      (if finalize then [] else [ChangeOwner(b.timelock)]) + [SetTimelock(b.timelock)]
  {
    OneEach(b, AuthoritySteps(finalize));
  }

  lemma ProgramIsSent(b: AddressBook, finalize: bool)
    ensures Messages(b, Program(b, finalize)) ==
      SetupMessages(b) + [Mint(0), Mint(1), Mint(2), Mint(3), Mint(4), Mint(5)] + FeeMessages(b)
      + (if finalize then [SetTimelock(b.timelock), Msg.CloseMint, ChangeOwner(REVOKED_ADMIN)]
         else [ChangeOwner(b.timelock), SetTimelock(b.timelock)])
  {
    var s, m, f, a := SetupSteps(), MintSteps(), FeeSteps(b), AuthoritySteps(finalize);
    var fin := if finalize then FinalizeSteps(b) else [];
    SetupIsSent(b);
    MintsAreSent(b);
    FeesAreSent(b);
    AuthorityIsSent(b, finalize);
    FinalizingIsSent(b);
    NoneEach(b, [Record(finalize)]);
    SixMessages(b, s, m, f, a, fin, [Record(finalize)]);
    LastAreSent(b, finalize, Messages(b, s) + Messages(b, m) + Messages(b, f), Messages(b, a), Messages(b, fin));
  }

  lemma SixMessages(b: AddressBook, s: seq<Step>, m: seq<Step>, f: seq<Step>, a: seq<Step>, fin: seq<Step>,
                    last: seq<Step>)
    ensures Messages(b, s + m + f + a + fin + last) ==
      Messages(b, s) + Messages(b, m) + Messages(b, f) + Messages(b, a) + Messages(b, fin) + Messages(b, last)
  {
    FourMessages(b, s, m, f, a);
    MessagesAppend(b, s + m + f + a, fin);
    MessagesAppend(b, s + m + f + a + fin, last);
  }

  lemma LastAreSent(b: AddressBook, finalize: bool, front: seq<Msg>, a: seq<Msg>, fin: seq<Msg>)
    requires a == (if finalize then [] else [ChangeOwner(b.timelock)]) + [SetTimelock(b.timelock)]
    requires fin == if finalize then [Msg.CloseMint, ChangeOwner(REVOKED_ADMIN)] else []
    ensures front + a + fin + [] == front
      + (if finalize then [SetTimelock(b.timelock), Msg.CloseMint, ChangeOwner(REVOKED_ADMIN)]
         else [ChangeOwner(b.timelock), SetTimelock(b.timelock)])
  {
  }

  /**
   * An uninterrupted first launch sends exactly these messages in this order: the core contracts and their wiring, the
   * governance contracts and the governor, the vaults; the six mints in the order of the plan; fee destinations,
   * exclusions and fee-config synchronizations; then the two handovers, or the timelock's and the end of all minting.
   */
  lemma FirstLaunchSends(b: AddressBook, finalize: bool)
    requires b.DistinctReceivers() && b.Valid() && DistinctOwners(b)
    ensures FullRun(b, finalize, Untouched(b)).sent ==
      SetupMessages(b) + [Mint(0), Mint(1), Mint(2), Mint(3), Mint(4), Mint(5)] + FeeMessages(b)
      + (if finalize then [SetTimelock(b.timelock), Msg.CloseMint, ChangeOwner(REVOKED_ADMIN)]
         else [ChangeOwner(b.timelock), SetTimelock(b.timelock)])
  {
    var p := Program(b, finalize);
    ProgramNeverRepeats(b, finalize);
    ProgramIsSteady(b, finalize);
    UntouchedIsEmpty(b, p);
    forall i | 0 <= i < |p| ensures SendsItsOwn(b, p[i], Worlds(b, p)[i]) { FreshStepSends(b, finalize, p, i); }
    WholeRunSends(b, p, Worlds(b, p));
    ProgramIsSent(b, finalize);
  }
}
