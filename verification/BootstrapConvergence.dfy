/**
 * Convergence of the bootstrap: when every message lands and the mint receivers differ,
 * crashed launches leave a prefix of the step list applied, the next full launch
 * completes it, and every launch after that sends nothing.
 */
module BootstrapConvergence {
  import opened Common
  import opened Sums
  import opened Allocations
  import opened Chain
  import opened Script
  import opened BootstrapSafety

  // ----- The world in which exactly the steps `done` are applied -----

  function MintedIn(done: set<Step>): multiset<nat> {
    multiset(set k: nat | k < |MINT_ALLOCATIONS| && MintTo(k) in done)
  }

  ghost function BalancesIn(b: AddressBook, done: set<Step>): Balances
    requires b.DistinctReceivers()
  {
    map k: nat | k < |MINT_ALLOCATIONS| && MintTo(k) in done :: b.ReceiverOf(k) := AmountOf(k)
  }

  function LiveIn(done: set<Step>): set<Contract> {
    set c: Contract | Deploy(c) in done
  }

  function ExcludedIn(done: set<Step>): set<Address> {
    set t | t in done && t.Exclude? :: t.holder
  }

  function ActiveIn(done: set<Step>): set<Address> {
    set t | t in done && t.Sync? :: t.owner
  }

  /** Which of the steps that happen once are applied. */
  datatype Singles = Singles(
    wired: bool, wallet: bool, governor: bool, emission: bool, fees: bool, adminHanded: bool, timelockHanded: bool,
    closed: bool, revoked: bool, final: bool, saved: bool)

  function SinglesOf(done: set<Step>): Singles {
    Singles(
      Wire in done, SetJettonWallet in done, PointGovernor in done, MintTo(EMISSION) in done, FeeDestinations in done,
      HandOverAdmin in done, HandOverTimelock in done, StopMinting in done, RevokeAdmin in done,
      Record(true) in done, Record(false) in done)
  }

  function Assemble(b: AddressBook, f: Singles, live: set<Contract>, balances: Balances, supply: nat,
                    excluded: set<Address>, active: set<Address>, minted: multiset<nat>): World {
    World(
      live,
      if f.wired then Some(b.stakingMaster) else None,
      if f.wallet then Some(b.masterJettonWallet) else None,
      if f.governor then b.governor else b.deployer,
      if f.emission then AmountOf(EMISSION) else 0,
      0,
      balances,
      supply,
      !f.closed,
      if f.revoked then REVOKED_ADMIN else if f.adminHanded then b.timelock else b.deployer,
      if f.timelockHanded then b.timelock else b.deployer,
      if f.fees then Some((b.stakingPool, b.treasury)) else None,
      excluded,
      active,
      minted,
      if f.final then Some(true) else if f.saved then Some(false) else None,
      multiset{})
  }

  ghost function WorldOf(b: AddressBook, done: set<Step>): World
    requires b.DistinctReceivers()
  {
    Assemble(b, SinglesOf(done), LiveIn(done), BalancesIn(b, done), MintedSum(MintedIn(done), |MINT_ALLOCATIONS|),
             ExcludedIn(done), ActiveIn(done), MintedIn(done))
  }

  lemma CollectionsGrow(b: AddressBook, t: Step, done: set<Step>)
    ensures LiveIn(done + {t}) == if t.Deploy? then LiveIn(done) + {t.c} else LiveIn(done)
    ensures ExcludedIn(done + {t}) == if t.Exclude? then ExcludedIn(done) + {t.holder} else ExcludedIn(done)
    ensures ActiveIn(done + {t}) == if t.Sync? then ActiveIn(done) + {t.owner} else ActiveIn(done)
    ensures !t.MintTo? ==> MintedIn(done + {t}) == MintedIn(done)
    ensures b.DistinctReceivers() && !t.MintTo? ==> BalancesIn(b, done + {t}) == BalancesIn(b, done)
  {
  }

  /** What a step that is not yet applied does to the world, when its message lands. */
  function Grown(b: AddressBook, t: Step, w: World): World {
    match t
    case Deploy(c) => w.(live := w.live + {c})
    case Wire => w.(poolMaster := Some(b.stakingMaster))
    case SetJettonWallet => w.(masterJettonWallet := Some(b.masterJettonWallet))
    case PointGovernor => w.(governorAddr := b.governor)
    case MintTo(k) =>
      if k < |MINT_ALLOCATIONS| then
        w.(balances := Credit(w.balances, b.ReceiverOf(k), AmountOf(k)),
           totalSupply := w.totalSupply + AmountOf(k),
           minted := w.minted + multiset{k},
           emissionFunded := if k == EMISSION then AmountOf(EMISSION) else w.emissionFunded)
      else w
    case FeeDestinations => w.(feeDestinations := Some((b.stakingPool, b.treasury)))
    case Exclude(h) => w.(excluded := w.excluded + {h})
    case Sync(o) => w.(feeActive := w.feeActive + {o})
    case HandOverAdmin => w.(admin := b.timelock)
    case HandOverTimelock => w.(jettonTimelock := b.timelock)
    case StopMinting => w.(mintable := false)
    case RevokeAdmin => w.(admin := REVOKED_ADMIN)
    case Record(f) => w.(record := Some(f))
    case _ => w
  }

  lemma MintIsCounted(k: nat, done: set<Step>)
    requires k < |MINT_ALLOCATIONS| && MintTo(k) !in done
    ensures MintedIn(done + {MintTo(k)}) == MintedIn(done) + multiset{k}
  {
    var before := set j: nat | j < |MINT_ALLOCATIONS| && MintTo(j) in done;
    var after := set j: nat | j < |MINT_ALLOCATIONS| && MintTo(j) in done + {MintTo(k)};
    assert after == before + {k} && k !in before;
  }

  /** An allocation minted among `done` sits at its receiver, and nothing else is held anywhere. */
  lemma BalanceIn(b: AddressBook, done: set<Step>, j: nat)
    requires b.DistinctReceivers() && j < |MINT_ALLOCATIONS|
    ensures b.ReceiverOf(j) in BalancesIn(b, done) <==> MintTo(j) in done
    ensures MintTo(j) in done ==> BalancesIn(b, done)[b.ReceiverOf(j)] == AmountOf(j)
  {
  }

  lemma HolderIn(b: AddressBook, done: set<Step>, a: Address) returns (j: nat)
    requires b.DistinctReceivers() && a in BalancesIn(b, done)
    ensures j < |MINT_ALLOCATIONS| && MintTo(j) in done && b.ReceiverOf(j) == a
  {
    j :| j < |MINT_ALLOCATIONS| && MintTo(j) in done && b.ReceiverOf(j) == a;
  }

  lemma BalancesGrow(b: AddressBook, k: nat, done: set<Step>, a: Address)
    requires b.DistinctReceivers() && k < |MINT_ALLOCATIONS| && MintTo(k) !in done
    ensures var m, grown := BalancesIn(b, done), BalancesIn(b, done + {MintTo(k)});
      && (a in grown <==> a in m || a == b.ReceiverOf(k))
      && (a in m ==> grown[a] == m[a])
  {
    var more := done + {MintTo(k)};
    if a in BalancesIn(b, done) {
      var j := HolderIn(b, done, a);
      BalanceIn(b, done, j);
      BalanceIn(b, more, j);
    }
    if a in BalancesIn(b, more) {
      var j := HolderIn(b, more, a);
      BalanceIn(b, done, j);
    }
    BalanceIn(b, more, k);
  }

  lemma MintGrows(b: AddressBook, k: nat, done: set<Step>)
    requires b.DistinctReceivers() && k < |MINT_ALLOCATIONS| && MintTo(k) !in done
    ensures MintedIn(done + {MintTo(k)}) == MintedIn(done) + multiset{k}
    ensures b.ReceiverOf(k) !in BalancesIn(b, done)
    ensures Credit(BalancesIn(b, done), b.ReceiverOf(k), AmountOf(k)) == BalancesIn(b, done + {MintTo(k)})
  {
    MintIsCounted(k, done);
    BalanceIn(b, done, k);
    BalanceIn(b, done + {MintTo(k)}, k);
    forall a { BalancesGrow(b, k, done, a); }
  }

  lemma AssembledByMint(b: AddressBook, k: nat, f: Singles, live: set<Contract>, balances: Balances, supply: nat,
                        excluded: set<Address>, active: set<Address>, minted: multiset<nat>)
    requires k < |MINT_ALLOCATIONS|
    ensures Assemble(b, WithSingle(f, MintTo(k)), live, Credit(balances, b.ReceiverOf(k), AmountOf(k)),
                     supply + AmountOf(k), excluded, active, minted + multiset{k})
      == Grown(b, MintTo(k), Assemble(b, f, live, balances, supply, excluded, active, minted))
  {
  }

  lemma WorldGrowsByMint(b: AddressBook, k: nat, done: set<Step>)
    requires b.DistinctReceivers() && k < |MINT_ALLOCATIONS| && MintTo(k) !in done
    ensures WorldOf(b, done + {MintTo(k)}) == Grown(b, MintTo(k), WorldOf(b, done))
  {
    CollectionsGrow(b, MintTo(k), done);
    MintGrows(b, k, done);
    MintedSumAfterMint(MintedIn(done), k, |MINT_ALLOCATIONS|);
    SinglesGrow(MintTo(k), done);
    AssembledByMint(b, k, SinglesOf(done), LiveIn(done), BalancesIn(b, done),
      MintedSum(MintedIn(done), |MINT_ALLOCATIONS|),
      ExcludedIn(done), ActiveIn(done), MintedIn(done));
  }

  lemma SinglesDecide(b: AddressBook, done: set<Step>, more: set<Step>)
    requires b.DistinctReceivers() && SinglesOf(more) == SinglesOf(done)
    requires MintedIn(more) == MintedIn(done) && BalancesIn(b, more) == BalancesIn(b, done)
    ensures WorldOf(b, more)
      == WorldOf(b, done).(live := LiveIn(more), excluded := ExcludedIn(more), feeActive := ActiveIn(more))
  {
  }

  lemma ListedGrowth(b: AddressBook, t: Step, w: World, w': World)
    requires t.Deploy? || t.Exclude? || t.Sync? || IsCheck(t) || t.RequireActive?
    requires w' == w.(
      live := if t.Deploy? then w.live + {t.c} else w.live,
      excluded := if t.Exclude? then w.excluded + {t.holder} else w.excluded,
      feeActive := if t.Sync? then w.feeActive + {t.owner} else w.feeActive)
    ensures w' == Grown(b, t, w)
    ensures IsCheck(t) || t.RequireActive? ==> w' == w
  {
  }

  lemma ListedLeavesSingles(f: Singles, t: Step)
    requires t.Deploy? || t.Exclude? || t.Sync? || IsCheck(t) || t.RequireActive?
    ensures WithSingle(f, t) == f
  {
  }

  lemma WorldGrowsByListed(b: AddressBook, t: Step, done: set<Step>)
    requires b.DistinctReceivers() && (t.Deploy? || t.Exclude? || t.Sync? || IsCheck(t) || t.RequireActive?)
    ensures WorldOf(b, done + {t}) == Grown(b, t, WorldOf(b, done))
    ensures IsCheck(t) || t.RequireActive? ==> WorldOf(b, done + {t}) == WorldOf(b, done)
  {
    CollectionsGrow(b, t, done);
    SinglesGrow(t, done);
    ListedLeavesSingles(SinglesOf(done), t);
    SinglesDecide(b, done, done + {t});
    ListedGrowth(b, t, WorldOf(b, done), WorldOf(b, done + {t}));
  }

  function WithSingle(f: Singles, t: Step): Singles {
    Singles(
      f.wired || t == Wire, f.wallet || t == SetJettonWallet, f.governor || t == PointGovernor,
      f.emission || t == MintTo(EMISSION), f.fees || t == FeeDestinations,
      f.adminHanded || t == HandOverAdmin, f.timelockHanded || t == HandOverTimelock,
      f.closed || t == StopMinting, f.revoked || t == RevokeAdmin, f.final || t == Record(true),
      f.saved || t == Record(false))
  }

  lemma SinglesGrow(t: Step, done: set<Step>)
    ensures SinglesOf(done + {t}) == WithSingle(SinglesOf(done), t)
  {
  }

  lemma AssembledByWiring(b: AddressBook, t: Step, f: Singles, live: set<Contract>, balances: Balances, supply: nat,
                          excluded: set<Address>, active: set<Address>, minted: multiset<nat>)
    requires t.Wire? || t.SetJettonWallet? || t.PointGovernor? || t.FeeDestinations?
    ensures Assemble(b, WithSingle(f, t), live, balances, supply, excluded, active, minted)
      == Grown(b, t, Assemble(b, f, live, balances, supply, excluded, active, minted))
  {
    match t
    case Wire =>
    case SetJettonWallet =>
    case PointGovernor =>
    case _ =>
  }

  lemma AssembledByAuthority(b: AddressBook, t: Step, f: Singles, live: set<Contract>, balances: Balances, supply: nat,
                             excluded: set<Address>, active: set<Address>, minted: multiset<nat>)
    requires (t.HandOverAdmin? && !f.revoked) || t.HandOverTimelock? || t.StopMinting? || t.RevokeAdmin?
    ensures Assemble(b, WithSingle(f, t), live, balances, supply, excluded, active, minted)
      == Grown(b, t, Assemble(b, f, live, balances, supply, excluded, active, minted))
  {
    match t
    case HandOverAdmin =>
    case HandOverTimelock =>
    case StopMinting =>
    case _ =>
  }

  lemma AssembledByRecord(b: AddressBook, finalized: bool, f: Singles, live: set<Contract>, balances: Balances,
                          supply: nat, excluded: set<Address>, active: set<Address>, minted: multiset<nat>)
    requires finalized || !f.final
    ensures Assemble(b, WithSingle(f, Record(finalized)), live, balances, supply, excluded, active, minted)
      == Grown(b, Record(finalized), Assemble(b, f, live, balances, supply, excluded, active, minted))
  {
  }

  lemma ReadOnlyIsInert(b: AddressBook, t: Step, f: Singles, w: World)
    requires t.RequireActive? || IsCheck(t)
    ensures WithSingle(f, t) == f && Grown(b, t, w) == w
  {
  }

  lemma AssembledGrows(b: AddressBook, t: Step, f: Singles, live: set<Contract>, balances: Balances, supply: nat,
                         excluded: set<Address>, active: set<Address>, minted: multiset<nat>)
    requires !t.MintTo? && !t.Deploy? && !t.Exclude? && !t.Sync?
    requires (t == HandOverAdmin ==> !f.revoked) && (t == Record(false) ==> !f.final)
    ensures Assemble(b, WithSingle(f, t), live, balances, supply, excluded, active, minted)
      == Grown(b, t, Assemble(b, f, live, balances, supply, excluded, active, minted))
  {
    if t.Wire? || t.SetJettonWallet? || t.PointGovernor? || t.FeeDestinations? {
      AssembledByWiring(b, t, f, live, balances, supply, excluded, active, minted);
    } else if t.HandOverAdmin? || t.HandOverTimelock? || t.StopMinting? || t.RevokeAdmin? {
      AssembledByAuthority(b, t, f, live, balances, supply, excluded, active, minted);
    } else if t.Record? {
      AssembledByRecord(b, t.finalized, f, live, balances, supply, excluded, active, minted);
    } else {
      ReadOnlyIsInert(b, t, f, Assemble(b, f, live, balances, supply, excluded, active, minted));
    }
  }

  lemma WorldGrowsBySingle(b: AddressBook, t: Step, done: set<Step>)
    requires b.DistinctReceivers() && !t.MintTo? && !t.Deploy? && !t.Exclude? && !t.Sync?
    requires (t == HandOverAdmin ==> RevokeAdmin !in done) && (t == Record(false) ==> Record(true) !in done)
    ensures WorldOf(b, done + {t}) == Grown(b, t, WorldOf(b, done))
  {
    CollectionsGrow(b, t, done);
    SinglesGrow(t, done);
    AssembledGrows(b, t, SinglesOf(done), LiveIn(done), BalancesIn(b, done),
      MintedSum(MintedIn(done), |MINT_ALLOCATIONS|),
      ExcludedIn(done), ActiveIn(done), MintedIn(done));
  }

  lemma WorldGrowsByOther(b: AddressBook, t: Step, done: set<Step>)
    requires b.DistinctReceivers() && t !in done && !t.MintTo?
    requires t == HandOverAdmin ==> RevokeAdmin !in done
    requires t == Record(false) ==> Record(true) !in done
    ensures WorldOf(b, done + {t}) == Grown(b, t, WorldOf(b, done))
  {
    if t.Deploy? || t.Exclude? || t.Sync? || IsCheck(t) || t.RequireActive? {
      WorldGrowsByListed(b, t, done);
    } else {
      WorldGrowsBySingle(b, t, done);
    }
  }

  // ----- The order of the step list -----

  function Rank(t: Step): nat {
    match t
    case Deploy(c) => if c in CORE_CONTRACTS then 0 else if c in GOVERNANCE_CONTRACTS then 3 else 5
    case Wire => 1
    case SetJettonWallet => 2
    case PointGovernor => 4
    case MintTo(_) => 6
    case FeeDestinations => 7
    case Exclude(_) => 8
    case Sync(_) => 9
    case RequireActive(_) => 10
    case HandOverAdmin => 11
    case HandOverTimelock => 12
    case VerifyOwner(_, _) => 13
    case VerifyEmission => 13
    case VerifySupply => 13
    case StopMinting => 14
    case RevokeAdmin => 15
    case Record(_) => 16
  }

  /** Ranks lie in `[lo, hi]` and never go down. */
  ghost predicate Ranked(steps: seq<Step>, lo: nat, hi: nat) {
    && (forall i :: 0 <= i < |steps| ==> lo <= Rank(steps[i]) <= hi)
    && (forall i, j :: 0 <= i < j < |steps| ==> Rank(steps[i]) <= Rank(steps[j]))
  }

  lemma RankedAppend(p: seq<Step>, q: seq<Step>, lo: nat, m: nat, n: nat, hi: nat)
    requires Ranked(p, lo, m) && Ranked(q, n, hi) && lo <= m <= n <= hi
    ensures Ranked(p + q, lo, hi)
  {
  }

  lemma RankedSections(setup: seq<Step>, mints: seq<Step>, fees: seq<Step>, auth: seq<Step>, fin: seq<Step>,
                       last: seq<Step>)
    requires Ranked(setup, 0, 5) && Ranked(mints, 6, 6) && Ranked(fees, 7, 10)
    requires Ranked(auth, 11, 12) && Ranked(fin, 13, 15) && Ranked(last, 16, 16)
    ensures Ranked(setup + mints + fees + auth + fin + last, 0, 16)
  {
    RankedAppend(setup, mints, 0, 5, 6, 6);
    RankedAppend(setup + mints, fees, 0, 6, 7, 10);
    RankedAppend(setup + mints + fees, auth, 0, 10, 11, 12);
    RankedAppend(setup + mints + fees + auth, fin, 0, 12, 13, 15);
    RankedAppend(setup + mints + fees + auth + fin, last, 0, 15, 16, 16);
  }

  lemma FinalizeIsRanked(b: AddressBook)
    ensures Ranked(FinalizeSteps(b), 13, 15)
  {
    RankedAppend(VerifySteps(b), [VerifyEmission, VerifySupply, StopMinting, RevokeAdmin], 13, 13, 13, 15);
  }

  lemma ProgramIsRanked(b: AddressBook, finalize: bool)
    ensures Ranked(Program(b, finalize), 0, 16)
  {
    SetupIsRanked();
    FeesAreRanked(b);
    FinalizeIsRanked(b);
    RankedSections(SetupSteps(), MintSteps(), FeeSteps(b), AuthoritySteps(finalize),
      if finalize then FinalizeSteps(b) else [], [Record(finalize)]);
  }

  lemma FeesAreRanked(b: AddressBook)
    ensures Ranked(FeeSteps(b), 7, 10)
  {
    var ex, sync, active := ExcludeSteps(b.ExcludedOwners()), SyncSteps(b.FeeConfigOwners()),
      ActiveSteps(b.FeeConfigOwners());
    RankedAppend([FeeDestinations], ex, 7, 7, 8, 8);
    RankedAppend([FeeDestinations] + ex, sync, 7, 8, 9, 9);
    RankedAppend([FeeDestinations] + ex + sync, active, 7, 9, 10, 10);
  }

  lemma SetupIsRanked()
    ensures Ranked(SetupSteps(), 0, 5)
  {
    var a := DeploySteps(CORE_CONTRACTS);
    RankedAppend(a, [Wire, SetJettonWallet], 0, 0, 1, 2);
    RankedAppend(a + [Wire, SetJettonWallet], DeploySteps(GOVERNANCE_CONTRACTS), 0, 2, 3, 3);
    var c := a + [Wire, SetJettonWallet] + DeploySteps(GOVERNANCE_CONTRACTS);
    RankedAppend(c, [PointGovernor], 0, 3, 4, 4);
    RankedAppend(c + [PointGovernor], DeploySteps(VESTING_CONTRACTS), 0, 4, 5, 5);
  }

  lemma ProgramSections(b: AddressBook, finalize: bool, t: Step)
    ensures t in Program(b, finalize) <==>
      (t in SetupSteps() || t in MintSteps() || t in FeeSteps(b) || t in AuthoritySteps(finalize)
       || (finalize && t in FinalizeSteps(b)) || t == Record(finalize))
  {
  }

  lemma SetupMembers(t: Step)
    ensures t in SetupSteps() ==> t.Deploy? || t.Wire? || t.SetJettonWallet? || t.PointGovernor?
    ensures t in [Deploy(JettonMasterC), Deploy(StakingPoolC), Deploy(StakingMasterC), Wire] ==> t in SetupSteps()
  {
    var core := DeploySteps(CORE_CONTRACTS);
    assert core[0] == Deploy(JettonMasterC) && core[2] == Deploy(StakingPoolC) && core[4] == Deploy(StakingMasterC);
    assert t in SetupSteps() <==>
      (t in core || t in [Wire, SetJettonWallet] || t in DeploySteps(GOVERNANCE_CONTRACTS)
       || t == PointGovernor || t in DeploySteps(VESTING_CONTRACTS));
  }

  /** Which steps the step list contains. */
  ghost predicate Listed(b: AddressBook, finalize: bool, t: Step) {
    match t
    case MintTo(k) => k < |MINT_ALLOCATIONS|
    case FeeDestinations => true
    case Exclude(h) => h in b.ExcludedOwners()
    case Sync(o) => o in b.FeeConfigOwners()
    case RequireActive(o) => o in b.FeeConfigOwners()
    case HandOverAdmin => !finalize
    case HandOverTimelock => true
    case VerifyOwner(_, _) => finalize && t in VerifySteps(b)
    case VerifyEmission => finalize
    case VerifySupply => finalize
    case StopMinting => finalize
    case RevokeAdmin => finalize
    case Record(f) => f == finalize
    case _ => t in SetupSteps()
  }

  lemma ProgramMembers(b: AddressBook, finalize: bool, t: Step)
    ensures t in Program(b, finalize) <==> Listed(b, finalize, t)
  {
    ProgramSections(b, finalize, t);
    SetupMembers(t);
    FeeMembers(b, t);
    MintMembers(t);
    FinalizeMembers(b, t);
  }

  lemma MintMembers(t: Step)
    ensures t in MintSteps() <==> t.MintTo? && t.k < |MINT_ALLOCATIONS|
  {
    if t.MintTo? && t.k < |MINT_ALLOCATIONS| {
      assert MintSteps()[t.k] == t;
    }
  }

  lemma FinalizeMembers(b: AddressBook, t: Step)
    ensures t in VerifySteps(b) ==> t.VerifyOwner?
    ensures t in FinalizeSteps(b)
      <==> t in VerifySteps(b) || t.VerifyEmission? || t.VerifySupply? || t.StopMinting? || t.RevokeAdmin?
  {
    assert t in FinalizeSteps(b)
      <==> t in VerifySteps(b) || t in [VerifyEmission, VerifySupply, StopMinting, RevokeAdmin];
  }

  lemma FeeMembers(b: AddressBook, t: Step)
    ensures t in FeeSteps(b) <==>
      (match t
       case FeeDestinations => true
       case Exclude(h) => h in b.ExcludedOwners()
       case Sync(o) => o in b.FeeConfigOwners()
       case RequireActive(o) => o in b.FeeConfigOwners()
       case _ => false)
  {
    var ex, fo := b.ExcludedOwners(), b.FeeConfigOwners();
    assert t in FeeSteps(b) <==>
      (t == FeeDestinations || t in ExcludeSteps(ex) || t in SyncSteps(fo) || t in ActiveSteps(fo));
    StepsPerOwner(ex, t);
    StepsPerOwner(fo, t);
  }

  lemma StepsPerOwner(owners: seq<Address>, t: Step)
    ensures t in ExcludeSteps(owners) <==> t.Exclude? && t.holder in owners
    ensures t in SyncSteps(owners) <==> t.Sync? && t.owner in owners
    ensures t in ActiveSteps(owners) <==> t.RequireActive? && t.owner in owners
  {
    if t.Exclude? && t.holder in owners {
      var i :| 0 <= i < |owners| && owners[i] == t.holder;
      assert ExcludeSteps(owners)[i] == t;
    } else if t.Sync? && t.owner in owners {
      var i :| 0 <= i < |owners| && owners[i] == t.owner;
      assert SyncSteps(owners)[i] == t;
    } else if t.RequireActive? && t.owner in owners {
      var i :| 0 <= i < |owners| && owners[i] == t.owner;
      assert ActiveSteps(owners)[i] == t;
    }
  }

  // ----- One landing step -----

  /** `done` is what a run of this step list has behind it when it is about to perform `t`. */
  ghost predicate Upto(b: AddressBook, finalize: bool, t: Step, done: set<Step>) {
    && (forall u :: u in done ==> Listed(b, finalize, u))
    && (forall u :: Listed(b, finalize, u) && Rank(u) < Rank(t) ==> u in done)
    && (t !in done ==> forall u :: u in done ==> Rank(u) <= Rank(t))
  }

  /** The step leaves exactly itself applied, and sends nothing if it was applied before. */
  ghost predicate Advances(b: AddressBook, t: Step, done: set<Step>)
    requires b.DistinctReceivers()
  {
    var s := Perform(b, t, WorldOf(b, done), Lands, false);
    s.ok && s.world == WorldOf(b, done + {t}) && (t in done ==> s.sent == [])
  }

  /** What the probes of the steps after the first section need to know of `done`. */
  ghost predicate Behind(t: Step, done: set<Step>) {
    && (Rank(t) > 0 ==> {JettonMasterC, StakingPoolC, StakingMasterC} <= LiveIn(done))
    && (Rank(t) > 1 ==> Wire in done)
    && (Rank(t) > 6 ==> forall k: nat :: k < |MINT_ALLOCATIONS| ==> MintTo(k) in done)
    && (Rank(t) > 7 ==> FeeDestinations in done)
  }

  ghost predicate Ahead(t: Step, done: set<Step>) {
    && (Rank(t) < 15 ==> RevokeAdmin !in done)
    && (Rank(t) < 14 ==> StopMinting !in done)
    && (Rank(t) < 12 ==> HandOverTimelock !in done)
    && (Rank(t) < 11 ==> HandOverAdmin !in done)
  }

  lemma UptoIsBehind(b: AddressBook, finalize: bool, t: Step, done: set<Step>)
    requires Upto(b, finalize, t, done)
    ensures Behind(t, done)
  {
    var core := [Deploy(JettonMasterC), Deploy(StakingPoolC), Deploy(StakingMasterC), Wire];
    forall i | 0 <= i < |core| ensures Listed(b, finalize, core[i]) {
      SetupMembers(core[i]);
    }
    assert Listed(b, finalize, core[0]) && Listed(b, finalize, core[1]) && Listed(b, finalize, core[2])
      && Listed(b, finalize, core[3]);
    assert Rank(core[0]) == Rank(core[1]) == Rank(core[2]) == 0 && Rank(Wire) == 1;
    forall k: nat | k < |MINT_ALLOCATIONS| && Rank(t) > 6 ensures MintTo(k) in done {
      assert Listed(b, finalize, MintTo(k));
    }
    assert Listed(b, finalize, FeeDestinations);
  }

  lemma UptoIsAhead(b: AddressBook, finalize: bool, t: Step, done: set<Step>)
    requires Upto(b, finalize, t, done)
    ensures t !in done ==> Ahead(t, done)
    ensures finalize ==> HandOverAdmin !in done
    ensures Record(!finalize) !in done
  {
    assert finalize ==> !Listed(b, finalize, HandOverAdmin);
    assert !Listed(b, finalize, Record(!finalize));
  }

  /** A step that is applied already is skipped. */
  lemma DoneIsSkipped(b: AddressBook, t: Step, done: set<Step>)
    requires b.DistinctReceivers() && t in done && (t.MintTo? ==> t.k < |MINT_ALLOCATIONS|)
    requires Reads(t) <= LiveIn(done) && !IsCheck(t) && !t.RequireActive? && !t.Record?
    requires t == HandOverAdmin ==> RevokeAdmin !in done
    ensures Probe(b, t, WorldOf(b, done)) == Skip && done + {t} == done
  {
    if t.MintTo? {
      assert BalancesIn(b, done)[b.ReceiverOf(t.k)] == AmountOf(t.k);
    }
  }

  lemma SetupAdvances(b: AddressBook, t: Step, w: World)
    requires t.Deploy? || t.Wire? || t.SetJettonWallet? || t.PointGovernor?
    requires Reads(t) <= w.live && (t.Wire? ==> w.poolMaster.None?)
      && (t.SetJettonWallet? ==> w.masterJettonWallet.None?)
    requires t.PointGovernor? ==> w.governorAddr == b.deployer != b.governor
    ensures Perform(b, t, w, Lands, false).ok && Perform(b, t, w, Lands, false).world == Grown(b, t, w)
  {
  }

  lemma MintAdvances(b: AddressBook, k: nat, w: World)
    requires k < |MINT_ALLOCATIONS| && {JettonMasterC, StakingMasterC} <= w.live
    requires w.admin == b.deployer && w.mintable && w.totalSupply + AmountOf(k) <= MAX_SUPPLY_NANO
    requires Get(w.balances, b.ReceiverOf(k)) == 0 && w.poolMaster.Some? && (k == EMISSION ==> w.emissionFunded == 0)
    ensures Perform(b, MintTo(k), w, Lands, false).ok
      && Perform(b, MintTo(k), w, Lands, false).world == Grown(b, MintTo(k), w)
  {
    assert AmountOf(EMISSION) == TOTAL_EMISSION_NANO;
  }

  lemma FeesAdvance(b: AddressBook, t: Step, w: World)
    requires t.FeeDestinations? || t.Exclude? || t.Sync?
    requires JettonMasterC in w.live && w.jettonTimelock == b.deployer && |w.excluded| < MAX_EXCLUDED_ADDRESSES
    requires t.Sync? ==> w.feeDestinations.Some?
    ensures Perform(b, t, w, Lands, false).ok && Perform(b, t, w, Lands, false).world == Grown(b, t, w)
  {
    match t
    case FeeDestinations => assert Accepts(b, SetFeeDestinations(b.stakingPool, b.treasury), w);
    case Exclude(h) =>
      assert Accepts(b, AddExcluded(h), w);
      assert h in w.excluded ==> w.excluded + {h} == w.excluded;
    case Sync(o) =>
      assert Accepts(b, SyncFeeConfigToWallet(o), w);
      assert o in w.feeActive ==> w.feeActive + {o} == w.feeActive;
  }

  lemma AuthorityAdvances(b: AddressBook, t: Step, w: World)
    requires t.HandOverAdmin? || t.HandOverTimelock? || t.StopMinting? || t.RevokeAdmin? || t.Record?
    requires b.Valid() && JettonMasterC in w.live
    requires t.HandOverTimelock? ==> w.jettonTimelock == b.deployer
    requires t.HandOverAdmin? || t.StopMinting? || t.RevokeAdmin? ==> w.admin == b.deployer
    ensures Perform(b, t, w, Lands, false).ok && Perform(b, t, w, Lands, false).world == Grown(b, t, w)
  {
  }

  lemma SetOfSeq<T>(s: seq<T>)
    ensures |set x | x in s| <= |s|
  {
    if s != [] {
      var init := s[..|s| - 1];
      SetOfSeq(init);
      assert (set x | x in s) == (set x | x in init) + {s[|s| - 1]};
    }
  }

  lemma FewExcluded(b: AddressBook, finalize: bool, done: set<Step>)
    requires forall u :: u in done ==> Listed(b, finalize, u)
    ensures |ExcludedIn(done)| < MAX_EXCLUDED_ADDRESSES
  {
    var all := set h | h in b.ExcludedOwners();
    SetOfSeq(b.ExcludedOwners());
    assert all == ExcludedIn(done) + (all - ExcludedIn(done));
  }

  /** With distinct receivers, the first `n` allocations give an owner its own allocation and no more. */
  lemma {:induction false} OwnShareOnly(b: AddressBook, n: nat, k: nat)
    requires b.DistinctReceivers() && n <= |MINT_ALLOCATIONS| && k < |MINT_ALLOCATIONS|
    ensures ExpectedFor(MINT_ALLOCATIONS[..n], b.Resolve, b.ReceiverOf(k)) == if k < n then AmountOf(k) else 0
    decreases n
  {
    if n == 0 {
    } else {
      var plan := MINT_ALLOCATIONS[..n];
      OwnShareOnly(b, n - 1, k);
      assert plan[..n - 1] == MINT_ALLOCATIONS[..n - 1] && plan[n - 1] == MINT_ALLOCATIONS[n - 1];
      assert b.Resolve(plan[n - 1].receiver) == b.ReceiverOf(n - 1);
      if k != n - 1 {
        assert b.ReceiverOf(n - 1) != b.ReceiverOf(k);
      }
    }
  }

  lemma OwnerCheckPasses(b: AddressBook, t: Step, done: set<Step>)
    requires b.DistinctReceivers() && t.VerifyOwner? && t in VerifySteps(b)
    requires forall k: nat :: k < |MINT_ALLOCATIONS| ==> MintTo(k) in done
    ensures Get(BalancesIn(b, done), t.owner) == t.expectedNano
  {
    var i :| 0 <= i < |VerifySteps(b)| && VerifySteps(b)[i] == t;
    assert t.owner in Owners(MINT_ALLOCATIONS, b.Resolve);
    var k :| 0 <= k < |MINT_ALLOCATIONS| && b.Resolve(MINT_ALLOCATIONS[k].receiver) == t.owner;
    assert t.owner == b.ReceiverOf(k);
    OwnShareOnly(b, |MINT_ALLOCATIONS|, k);
    assert MINT_ALLOCATIONS[..|MINT_ALLOCATIONS|] == MINT_ALLOCATIONS;
    assert MintTo(k) in done;
    assert BalancesIn(b, done)[b.ReceiverOf(k)] == AmountOf(k);
  }

  /** Checks and required activations find what earlier steps left, and change nothing. */
  lemma ReadOnlyAdvances(b: AddressBook, finalize: bool, t: Step, done: set<Step>)
    requires b.DistinctReceivers() && Upto(b, finalize, t, done) && Listed(b, finalize, t)
    requires IsCheck(t) || t.RequireActive?
    ensures Probe(b, t, WorldOf(b, done)) == Skip
  {
    UptoIsBehind(b, finalize, t, done);
    if t.VerifyOwner? {
      OwnerCheckPasses(b, t, done);
    } else if t.VerifySupply? {
      MintedSumIsCapped(MintedIn(done));
    } else if t.RequireActive? {
      assert Listed(b, finalize, Sync(t.owner)) && Sync(t.owner) in done;
    } else {
      assert MintTo(EMISSION) in done;
    }
  }

  lemma ReadOnlyChangesNothing(b: AddressBook, t: Step, done: set<Step>)
    requires b.DistinctReceivers() && (IsCheck(t) || t.RequireActive?)
    ensures WorldOf(b, done + {t}) == WorldOf(b, done)
  {
    WorldGrowsByListed(b, t, done);
  }

  lemma NewStepAdvances(b: AddressBook, finalize: bool, t: Step, done: set<Step>)
    requires b.DistinctReceivers() && b.Valid() && Listed(b, finalize, t) && t !in done
    requires Behind(t, done) && Ahead(t, done) && (finalize ==> HandOverAdmin !in done)
    requires !IsCheck(t) && !t.RequireActive? && |ExcludedIn(done)| < MAX_EXCLUDED_ADDRESSES
    ensures Perform(b, t, WorldOf(b, done), Lands, false).ok
    ensures Perform(b, t, WorldOf(b, done), Lands, false).world == Grown(b, t, WorldOf(b, done))
  {
    var w := WorldOf(b, done);
    if t.MintTo? {
      MintGrows(b, t.k, done);
      MintedSumAfterMint(MintedIn(done), t.k, |MINT_ALLOCATIONS|);
      MintedSumIsCapped(MintedIn(done + {t}));
      MintAdvances(b, t.k, w);
    } else if t.FeeDestinations? || t.Exclude? || t.Sync? {
      FeesAdvance(b, t, w);
    } else if t.Deploy? || t.Wire? || t.SetJettonWallet? || t.PointGovernor? {
      SetupAdvances(b, t, w);
    } else {
      AuthorityAdvances(b, t, w);
    }
  }

  lemma SkippedAdvances(b: AddressBook, t: Step, done: set<Step>)
    requires b.DistinctReceivers() && Probe(b, t, WorldOf(b, done)) == Skip
    requires WorldOf(b, done + {t}) == WorldOf(b, done)
    ensures Advances(b, t, done)
  {
  }

  lemma RecordedAgain(b: AddressBook, t: Step, done: set<Step>)
    requires b.DistinctReceivers() && t.Record? && t in done && (t == Record(false) ==> Record(true) !in done)
    ensures done + {t} == done && Advances(b, t, done)
  {
    assert done + {t} == done;
    assert WorldOf(b, done).record == Some(t.finalized);
    assert Perform(b, t, WorldOf(b, done), Lands, false).world == WorldOf(b, done);
  }

  lemma DoneAdvances(b: AddressBook, t: Step, done: set<Step>)
    requires b.DistinctReceivers() && t in done && (t.MintTo? ==> t.k < |MINT_ALLOCATIONS|) && Behind(t, done)
    requires !IsCheck(t) && !t.RequireActive? && (t == HandOverAdmin ==> RevokeAdmin !in done)
    requires t == Record(false) ==> Record(true) !in done
    ensures Advances(b, t, done)
  {
    assert done + {t} == done;
    if t.Record? {
      RecordedAgain(b, t, done);
    } else {
      assert t.Deploy? || Rank(t) > 0;
      DoneIsSkipped(b, t, done);
      SkippedAdvances(b, t, done);
    }
  }

  lemma NewAdvances(b: AddressBook, finalize: bool, t: Step, done: set<Step>)
    requires b.DistinctReceivers() && b.Valid() && Upto(b, finalize, t, done) && Listed(b, finalize, t) && t !in done
    requires !IsCheck(t) && !t.RequireActive?
    ensures Advances(b, t, done)
  {
    UptoIsBehind(b, finalize, t, done);
    UptoIsAhead(b, finalize, t, done);
    FewExcluded(b, finalize, done);
    NewStepAdvances(b, finalize, t, done);
    if t.MintTo? {
      WorldGrowsByMint(b, t.k, done);
    } else {
      WorldGrowsByOther(b, t, done);
    }
  }

  lemma StepAdvances(b: AddressBook, finalize: bool, t: Step, done: set<Step>)
    requires b.DistinctReceivers() && b.Valid() && Upto(b, finalize, t, done) && Listed(b, finalize, t)
    ensures Advances(b, t, done)
  {
    if IsCheck(t) || t.RequireActive? {
      ReadOnlyAdvances(b, finalize, t, done);
      ReadOnlyChangesNothing(b, t, done);
      SkippedAdvances(b, t, done);
    } else if t !in done {
      NewAdvances(b, finalize, t, done);
    } else {
      UptoIsBehind(b, finalize, t, done);
      UptoIsAhead(b, finalize, t, done);
      assert t == HandOverAdmin ==> !finalize && !Listed(b, finalize, RevokeAdmin);
      DoneAdvances(b, t, done);
    }
  }

  // ----- Runs in which every message lands -----

  /** Fates of a launch that performs `n` steps and then crashes, or completes if there are no more. */
  function Smooth(n: nat): seq<Fate> {
    seq(n, _ => Go([], Lands, false))
  }

  lemma RunFirst(b: AddressBook, p: seq<Step>, w: World, n: nat)
    requires p != [] && n > 0
    ensures var s := Perform(b, p[0], w, Lands, false);
      Run(b, p, w, Smooth(n)) ==
        if s.ok then Prepend(s.sent, Run(b, p[1..], s.world, Smooth(n - 1))) else RunResult(s.world, Refused, s.sent)
  {
    assert Smooth(n)[0] == Go([], Lands, false) && Smooth(n)[1..] == Smooth(n - 1);
    RunCons(b, p, w, Smooth(n));
  }

  function DoneBy(p: seq<Step>, n: nat): set<Step>
    requires n <= |p|
  {
    set t | t in p[..n]
  }

  function Max(a: nat, c: nat): nat {
    if a < c then c else a
  }

  /** The worlds with the first 0, 1, 2, ... steps of `p` applied. */
  ghost function Worlds(b: AddressBook, p: seq<Step>): (ws: seq<World>)
    requires b.DistinctReceivers()
    ensures |ws| == |p| + 1 && forall n :: 0 <= n <= |p| ==> ws[n] == WorldOf(b, DoneBy(p, n))
  {
    seq(|p| + 1, n requires 0 <= n <= |p| => WorldOf(b, DoneBy(p, n)))
  }

  /** When its message lands, the step leads from one world to the other. */
  ghost predicate StepsTo(b: AddressBook, t: Step, w: World, w': World, silent: bool) {
    var s := Perform(b, t, w, Lands, false);
    s.ok && s.world == w' && (silent ==> s.sent == [])
  }

  /** At every position from `i` on, with at least the steps before it applied, the step applies itself and no more. */
  ghost predicate SteadyFrom(b: AddressBook, p: seq<Step>, ws: seq<World>, i: nat)
    requires |ws| == |p| + 1 && i <= |p|
    decreases |p| - i
  {
    i < |p| ==>
      (forall n :: i <= n <= |p| ==> StepsTo(b, p[i], ws[n], ws[Max(n, i + 1)], i < n)) && SteadyFrom(b, p, ws, i + 1)
  }

  lemma PositionSteps(b: AddressBook, finalize: bool, p: seq<Step>, ws: seq<World>, i: nat, n: nat)
    requires b.DistinctReceivers() && b.Valid() && i < |p| && i <= n <= |p| && ws == Worlds(b, p)
    requires Ranked(p, 0, 16) && forall u :: u in p <==> Listed(b, finalize, u)
    ensures StepsTo(b, p[i], ws[n], ws[Max(n, i + 1)], i < n)
  {
    RankedIsUpto(b, finalize, p, i, n);
    assert p[i] in p;
    StepAdvances(b, finalize, p[i], DoneBy(p, n));
    OneMoreDone(p, i, n);
  }

  ghost predicate AllStep(b: AddressBook, p: seq<Step>, ws: seq<World>)
    requires |ws| == |p| + 1
  {
    forall i, n :: 0 <= i < |p| && i <= n <= |p| ==> StepsTo(b, p[i], ws[n], ws[Max(n, i + 1)], i < n)
  }

  lemma {:induction false} AllStepIsSteady(b: AddressBook, p: seq<Step>, ws: seq<World>, i: nat)
    requires |ws| == |p| + 1 && i <= |p| && AllStep(b, p, ws)
    ensures SteadyFrom(b, p, ws, i)
    decreases |p| - i
  {
    if i < |p| {
      AllStepIsSteady(b, p, ws, i + 1);
    }
  }

  lemma RankedAllStep(b: AddressBook, finalize: bool, p: seq<Step>)
    requires b.DistinctReceivers() && b.Valid()
    requires Ranked(p, 0, 16) && forall u :: u in p <==> Listed(b, finalize, u)
    ensures AllStep(b, p, Worlds(b, p))
  {
    var ws := Worlds(b, p);
    forall i, n | 0 <= i < |p| && i <= n <= |p| ensures StepsTo(b, p[i], ws[n], ws[Max(n, i + 1)], i < n) {
      PositionSteps(b, finalize, p, ws, i, n);
    }
  }

  lemma ProgramIsSteady(b: AddressBook, finalize: bool)
    requires b.DistinctReceivers() && b.Valid()
    ensures SteadyFrom(b, Program(b, finalize), Worlds(b, Program(b, finalize)), 0)
  {
    var p := Program(b, finalize);
    ProgramIsRanked(b, finalize);
    forall u ensures u in p <==> Listed(b, finalize, u) {
      ProgramMembers(b, finalize, u);
    }
    RankedAllStep(b, finalize, p);
    AllStepIsSteady(b, p, Worlds(b, p), 0);
  }

  lemma StepAt(p: seq<Step>, n: nat, u: Step) returns (j: nat)
    requires n <= |p| && u in DoneBy(p, n)
    ensures j < n && p[j] == u
  {
    j :| 0 <= j < n && p[..n][j] == u;
  }

  lemma StepIsDone(p: seq<Step>, n: nat, j: nat)
    requires j < n <= |p|
    ensures p[j] in DoneBy(p, n)
  {
    assert p[..n][j] == p[j];
  }

  lemma PositionIn(p: seq<Step>, u: Step) returns (j: nat)
    requires u in p
    ensures j < |p| && p[j] == u
  {
    j :| 0 <= j < |p| && p[j] == u;
  }

  lemma DoneIsEarlier(b: AddressBook, finalize: bool, p: seq<Step>, i: nat, n: nat, u: Step)
    requires Ranked(p, 0, 16) && forall v :: v in p <==> Listed(b, finalize, v)
    requires i < |p| && i <= n <= |p| && u in DoneBy(p, n)
    ensures Listed(b, finalize, u) && (n == i ==> Rank(u) <= Rank(p[i]))
  {
    var j := StepAt(p, n, u);
    assert u in p;
  }

  lemma EarlierIsDone(b: AddressBook, finalize: bool, p: seq<Step>, i: nat, n: nat, u: Step)
    requires Ranked(p, 0, 16) && forall v :: v in p <==> Listed(b, finalize, v)
    requires i < |p| && i <= n <= |p| && Listed(b, finalize, u) && Rank(u) < Rank(p[i])
    ensures u in DoneBy(p, n)
  {
    var j := PositionIn(p, u);
    assert j < i;
    StepIsDone(p, n, j);
  }

  lemma RankedIsUpto(b: AddressBook, finalize: bool, p: seq<Step>, i: nat, n: nat)
    requires Ranked(p, 0, 16) && forall u :: u in p <==> Listed(b, finalize, u)
    requires i < |p| && i <= n <= |p|
    ensures Upto(b, finalize, p[i], DoneBy(p, n))
  {
    var t, done := p[i], DoneBy(p, n);
    if i < n { StepIsDone(p, n, i); }
    forall u | u in done ensures Listed(b, finalize, u) && (t !in done ==> Rank(u) <= Rank(t)) {
      DoneIsEarlier(b, finalize, p, i, n, u);
    }
    forall u | Listed(b, finalize, u) && Rank(u) < Rank(t) ensures u in done {
      EarlierIsDone(b, finalize, p, i, n, u);
    }
  }

  lemma OneMoreDone(p: seq<Step>, i: nat, n: nat)
    requires i < |p| && i <= n <= |p|
    ensures DoneBy(p, n) + {p[i]} == DoneBy(p, Max(n, i + 1))
    ensures i < n ==> p[i] in DoneBy(p, n)
  {
    if n == i {
      assert p[..i + 1] == p[..i] + [p[i]];
    } else {
      assert p[i] == p[..n][i];
    }
  }

  lemma SmoothStep(b: AddressBook, p: seq<Step>, ws: seq<World>, i: nat, n: nat, left: nat) returns (sent: seq<Msg>)
    requires |ws| == |p| + 1 && i < |p| && SteadyFrom(b, p, ws, i) && i <= n <= |p| && left > 0
    ensures Run(b, p[i..], ws[n], Smooth(left))
      == Prepend(sent, Run(b, p[i + 1..], ws[Max(n, i + 1)], Smooth(left - 1)))
    ensures i < n ==> sent == []
    ensures SteadyFrom(b, p, ws, i + 1)
  {
    assert Smooth(left)[0] == Go([], Lands, false) && Smooth(left)[1..] == Smooth(left - 1);
    assert p[i..][0] == p[i] && p[i..][1..] == p[i + 1..];
    assert StepsTo(b, p[i], ws[n], ws[Max(n, i + 1)], i < n);
    RunCons(b, p[i..], ws[n], Smooth(left));
    sent := Perform(b, p[i], ws[n], Lands, false).sent;
  }

  /** A landing run that ends in the world `w`. */
  ghost predicate EndsIn(r: RunResult, w: World, complete: bool, silent: bool) {
    r.world == w && r.end == (if complete then Done else Crashed) && (silent ==> r.sent == [])
  }

  lemma PrependEndsIn(sent: seq<Msg>, r: RunResult, w: World, complete: bool, was: bool, silent: bool)
    requires EndsIn(r, w, complete, was) && (silent ==> was && sent == [])
    ensures EndsIn(Prepend(sent, r), w, complete, silent)
  {
  }

  /** From step `i` on, with the first `n` steps applied, running up to step `to` applies all before it. */
  lemma {:induction false} SmoothRun(b: AddressBook, p: seq<Step>, ws: seq<World>, i: nat, n: nat, left: nat, to: nat)
    requires |ws| == |p| + 1 && i <= n <= |p| && SteadyFrom(b, p, ws, i) && i + left == to <= |p|
    ensures EndsIn(Run(b, p[i..], ws[n], Smooth(left)), ws[Max(n, to)], to == |p|, to <= n)
    decreases left
  {
    if left == 0 {
      assert i == |p| ==> p[i..] == [];
    } else {
      var k := Max(n, i + 1);
      var sent := SmoothStep(b, p, ws, i, n, left);
      SmoothRun(b, p, ws, i + 1, k, left - 1, to);
      PrependEndsIn(sent, Run(b, p[i + 1..], ws[k], Smooth(left - 1)), ws[Max(k, to)], to == |p|, to <= k, to <= n);
    }
  }

  /** As above from the start, with any number of fates. */
  lemma SmoothLaunch(b: AddressBook, p: seq<Step>, ws: seq<World>, n: nat, fates: nat)
    requires |ws| == |p| + 1 && SteadyFrom(b, p, ws, 0) && n <= |p|
    ensures EndsIn(Run(b, p, ws[n], Smooth(fates)), ws[Max(n, if fates <= |p| then fates else |p|)],
                   fates >= |p|, n == |p|)
  {
    assert p[0..] == p;
    if fates <= |p| {
      SmoothRun(b, p, ws, 0, n, fates, fates);
    } else {
      SpareFates(b, p, ws[n], fates);
      SmoothRun(b, p, ws, 0, n, |p|, |p|);
    }
  }

  lemma UntouchedIsEmpty(b: AddressBook, p: seq<Step>)
    requires b.DistinctReceivers()
    ensures Untouched(b) == WorldOf(b, DoneBy(p, 0))
  {
    assert DoneBy(p, 0) == {};
    assert BalancesIn(b, {}) == map[] && MintedIn({}) == multiset{};
    MintedSumOfNone(|MINT_ALLOCATIONS|);
  }

  /** Fates beyond the end of the step list are not used. */
  lemma {:induction false} SpareFates(b: AddressBook, steps: seq<Step>, w: World, n: nat)
    requires |steps| <= n
    ensures Run(b, steps, w, Smooth(n)) == Run(b, steps, w, Smooth(|steps|))
    decreases |steps|
  {
    if steps == [] {
    } else {
      var k := |steps|;
      assert Smooth(n)[1..] == Smooth(n - 1) && Smooth(k)[1..] == Smooth(k - 1);
      assert Smooth(n)[0] == Smooth(k)[0] == Go([], Lands, false);
      var s := Perform(b, steps[0], w, Lands, false);
      RunCons(b, steps, w, Smooth(n));
      RunCons(b, steps, w, Smooth(k));
      SpareFates(b, steps[1..], s.world, n - 1);
    }
  }

  function SmoothHistory(finalize: bool, crashes: seq<nat>): seq<Event> {
    seq(|crashes|, i requires 0 <= i < |crashes| => Launch(finalize, Smooth(crashes[i])))
  }

  /** One more launch of a history. */
  lemma ReachedBySnoc(b: AddressBook, finalize: bool, crashes: seq<nat>)
    requires crashes != []
    ensures var init, last := crashes[..|crashes| - 1], crashes[|crashes| - 1];
      Reached(b, SmoothHistory(finalize, crashes)) ==
        Run(b, Program(b, finalize), Reached(b, SmoothHistory(finalize, init)), Smooth(last)).world
  {
    var history := SmoothHistory(finalize, crashes);
    assert history[..|history| - 1] == SmoothHistory(finalize, crashes[..|crashes| - 1]);
  }

  /** Crashed launches leave the first steps of the list applied, as many as the longest launch made. */
  lemma {:induction false} CrashesLeaveAPrefix(b: AddressBook, finalize: bool, p: seq<Step>, ws: seq<World>,
                                               crashes: seq<nat>)
    returns (n: nat)
    requires p == Program(b, finalize) && |ws| == |p| + 1 && ws[0] == Untouched(b) && SteadyFrom(b, p, ws, 0)
    ensures n <= |p| && Reached(b, SmoothHistory(finalize, crashes)) == ws[n]
    decreases |crashes|
  {
    if crashes == [] {
      n := 0;
    } else {
      var last := crashes[|crashes| - 1];
      var m := CrashesLeaveAPrefix(b, finalize, p, ws, crashes[..|crashes| - 1]);
      ReachedBySnoc(b, finalize, crashes);
      n := Max(m, if last <= |p| then last else |p|);
      SmoothLaunch(b, p, ws, m, last);
    }
  }

  // ----- Main results -----

  /** A launch that nothing interrupts. */
  function FullRun(b: AddressBook, finalize: bool, w: World): RunResult {
    Run(b, Program(b, finalize), w, Smooth(|Program(b, finalize)|))
  }

  lemma ConvergesFrom(b: AddressBook, p: seq<Step>, ws: seq<World>, n: nat, later: nat)
    requires |ws| == |p| + 1 && ws[0] == Untouched(b) && SteadyFrom(b, p, ws, 0) && n <= |p|
    ensures var full := Run(b, p, ws[n], Smooth(|p|));
      && full.end == Done
      && full.world == Run(b, p, Untouched(b), Smooth(|p|)).world
      && Run(b, p, full.world, Smooth(later)).sent == []
      && Run(b, p, full.world, Smooth(later)).world == full.world
      && (later >= |p| ==> Run(b, p, full.world, Smooth(later)).end == Done)
  {
    SmoothLaunch(b, p, ws, n, |p|);
    SmoothLaunch(b, p, ws, 0, |p|);
    SmoothLaunch(b, p, ws, |p|, later);
  }

  /**
   * After launches crashed at any steps, an uninterrupted launch completes in the world of a
   * fresh one, and any launch after that, crashed or not, sends no message and changes nothing.
   */
  lemma CrashedLaunchesConverge(b: AddressBook, finalize: bool, crashes: seq<nat>, later: nat)
    requires b.DistinctReceivers() && b.Valid()
    ensures var full := FullRun(b, finalize, Reached(b, SmoothHistory(finalize, crashes)));
      && full.end == Done
      && full.world == FullRun(b, finalize, Untouched(b)).world
      && Run(b, Program(b, finalize), full.world, Smooth(later)).sent == []
      && Run(b, Program(b, finalize), full.world, Smooth(later)).world == full.world
      && (later >= |Program(b, finalize)| ==> Run(b, Program(b, finalize), full.world, Smooth(later)).end == Done)
  {
    var p := Program(b, finalize);
    ProgramIsSteady(b, finalize);
    UntouchedIsEmpty(b, p);
    var n := CrashesLeaveAPrefix(b, finalize, p, Worlds(b, p), crashes);
    ConvergesFrom(b, p, Worlds(b, p), n, later);
  }

  ghost predicate Matches(b: AddressBook, finalize: bool, done: set<Step>, t: Step) {
    t in done <==> Listed(b, finalize, t)
  }

  lemma FullRunWorld(b: AddressBook, finalize: bool) returns (done: set<Step>)
    requires b.DistinctReceivers() && b.Valid()
    ensures FullRun(b, finalize, Untouched(b)).world == WorldOf(b, done)
    ensures forall t :: Matches(b, finalize, done, t)
  {
    var p := Program(b, finalize);
    ProgramIsSteady(b, finalize);
    UntouchedIsEmpty(b, p);
    SmoothLaunch(b, p, Worlds(b, p), 0, |p|);
    done := DoneBy(p, |p|);
    assert p[..|p|] == p;
    forall t ensures Matches(b, finalize, done, t) {
      ProgramMembers(b, finalize, t);
    }
  }

  lemma EverythingMinted(b: AddressBook, finalize: bool, done: set<Step>)
    requires forall t :: Matches(b, finalize, done, t)
    ensures forall k: nat :: k < |MINT_ALLOCATIONS| ==> MintTo(k) in done
    ensures MintedSum(MintedIn(done), |MINT_ALLOCATIONS|) == MAX_SUPPLY_NANO
  {
    forall k: nat | k < |MINT_ALLOCATIONS| ensures MintTo(k) in done {
      assert Matches(b, finalize, done, MintTo(k));
    }
    MintedSumIsCapped(MintedIn(done));
  }

  lemma EverythingDelivered(b: AddressBook, finalize: bool, done: set<Step>)
    requires b.DistinctReceivers() && forall t :: Matches(b, finalize, done, t)
    ensures forall k: nat :: k < |MINT_ALLOCATIONS| ==> Get(BalancesIn(b, done), b.ReceiverOf(k)) == AmountOf(k)
  {
    forall k: nat | k < |MINT_ALLOCATIONS| ensures Get(BalancesIn(b, done), b.ReceiverOf(k)) == AmountOf(k) {
      assert Matches(b, finalize, done, MintTo(k));
      assert BalancesIn(b, done)[b.ReceiverOf(k)] == AmountOf(k);
    }
  }

  lemma AuthorityListed(b: AddressBook, finalize: bool, done: set<Step>)
    requires forall t :: Matches(b, finalize, done, t)
    ensures HandOverTimelock in done && Record(finalize) in done && Record(!finalize) !in done
    ensures HandOverAdmin in done <==> !finalize
    ensures RevokeAdmin in done <==> finalize
    ensures StopMinting in done <==> finalize
  {
    assert Matches(b, finalize, done, HandOverTimelock);
    assert Matches(b, finalize, done, Record(finalize));
    assert Matches(b, finalize, done, Record(!finalize));
    assert Matches(b, finalize, done, HandOverAdmin);
    assert Matches(b, finalize, done, RevokeAdmin);
    assert Matches(b, finalize, done, StopMinting);
  }

  /** An uninterrupted first launch hands out the whole supply exactly when the mint receivers differ. */
  lemma FullDistributionIffDistinct(b: AddressBook, finalize: bool)
    requires b.Valid()
    ensures FullRun(b, finalize, Untouched(b)).world.totalSupply == MAX_SUPPLY_NANO <==> b.DistinctReceivers()
  {
    if b.DistinctReceivers() {
      var done := FullRunWorld(b, finalize);
      EverythingMinted(b, finalize, done);
    }
    if FullRun(b, finalize, Untouched(b)).world.totalSupply == MAX_SUPPLY_NANO {
      var history := FirstLaunch(b, finalize);
      FullSupplyNeedsDistinctReceivers(b, history);
    }
  }

  /** The history of a single uninterrupted launch. */
  lemma FirstLaunch(b: AddressBook, finalize: bool) returns (history: seq<Event>)
    requires b.Valid()
    ensures Reached(b, history) == FullRun(b, finalize, Untouched(b)).world && !HistoryClashes(b, OnWallet, history)
  {
    var n := |Program(b, finalize)|;
    history := SmoothHistory(finalize, [n]);
    ReachedBySnoc(b, finalize, [n]);
    assert SmoothHistory(finalize, []) == [];
    assert history[0] == Launch(finalize, Smooth(n));
    ReadableHistoryNeverClashes(b, OnWallet, history);
  }

  lemma EverythingDeployed(b: AddressBook, finalize: bool, done: set<Step>, c: Contract)
    requires forall t :: Matches(b, finalize, done, t)
    ensures c in LiveIn(done)
  {
    var core, gov := DeploySteps(CORE_CONTRACTS), DeploySteps(GOVERNANCE_CONTRACTS);
    var vest := DeploySteps(VESTING_CONTRACTS);
    assert Matches(b, finalize, done, Deploy(c));
    assert core[0] == Deploy(JettonMasterC) && core[1] == Deploy(TreasuryC) && core[2] == Deploy(StakingPoolC);
    assert core[3] == Deploy(StakingLockC) && core[4] == Deploy(StakingMasterC);
    assert gov[0] == Deploy(TimelockC) && gov[1] == Deploy(GovernorC);
    assert vest[0] == Deploy(VestingDeveloperC) && vest[1] == Deploy(VestingEcosystemC);
    assert vest[2] == Deploy(VestingReserveC);
    assert Deploy(c) in core || Deploy(c) in gov || Deploy(c) in vest;
    SetupSections(Deploy(c));
  }

  lemma SetupSections(t: Step)
    ensures t in SetupSteps() <==>
      (t in DeploySteps(CORE_CONTRACTS) || t in [Wire, SetJettonWallet] || t in DeploySteps(GOVERNANCE_CONTRACTS)
       || t == PointGovernor || t in DeploySteps(VESTING_CONTRACTS))
  {
  }

  lemma EverythingWired(b: AddressBook, finalize: bool, done: set<Step>)
    requires forall t :: Matches(b, finalize, done, t)
    ensures Wire in done && SetJettonWallet in done && PointGovernor in done && FeeDestinations in done
    ensures MintTo(EMISSION) in done
  {
    SetupSections(Wire);
    SetupSections(SetJettonWallet);
    SetupSections(PointGovernor);
    assert Matches(b, finalize, done, Wire) && Matches(b, finalize, done, SetJettonWallet);
    assert Matches(b, finalize, done, PointGovernor) && Matches(b, finalize, done, FeeDestinations);
    assert Matches(b, finalize, done, MintTo(EMISSION));
  }

  lemma ExactlyExcluded(b: AddressBook, finalize: bool, done: set<Step>, a: Address)
    requires forall t :: Matches(b, finalize, done, t)
    ensures a in ExcludedIn(done) <==> a in b.ExcludedOwners()
    ensures a in ActiveIn(done) <==> a in b.FeeConfigOwners()
  {
    assert Matches(b, finalize, done, Exclude(a)) && Matches(b, finalize, done, Sync(a));
    assert Exclude(a) in done ==> a in ExcludedIn(done);
    assert Sync(a) in done ==> a in ActiveIn(done);
  }

  /** The allocations of a full launch, field by field of the book. */
  lemma DeliveredByField(b: AddressBook, finalize: bool, done: set<Step>)
    requires b.DistinctReceivers() && forall t :: Matches(b, finalize, done, t)
    ensures HoldsPlan(b, BalancesIn(b, done))
  {
    EverythingMinted(b, finalize, done);
    var balances := BalancesIn(b, done);
    forall a ensures Get(balances, a) == ExpectedFor(MINT_ALLOCATIONS, b.Resolve, a) {
      if a in balances {
        var j := HolderIn(b, done, a);
        BalanceIn(b, done, j);
        OwnShareOnly(b, |MINT_ALLOCATIONS|, j);
        assert MINT_ALLOCATIONS[..|MINT_ALLOCATIONS|] == MINT_ALLOCATIONS;
      } else {
        NobodysShare(b, done, a);
      }
    }
    forall a { ExpectedByField(b, a); }
  }

  lemma NobodysShare(b: AddressBook, done: set<Step>, a: Address)
    requires b.DistinctReceivers() && a !in BalancesIn(b, done)
    requires forall k: nat :: k < |MINT_ALLOCATIONS| ==> MintTo(k) in done
    ensures ExpectedFor(MINT_ALLOCATIONS, b.Resolve, a) == 0
  {
    if a in Owners(MINT_ALLOCATIONS, b.Resolve) {
      var k :| 0 <= k < |MINT_ALLOCATIONS| && b.Resolve(MINT_ALLOCATIONS[k].receiver) == a;
      assert b.ReceiverOf(k) == a;
      BalanceIn(b, done, k);
      assert false;
    }
    NothingForStranger(MINT_ALLOCATIONS, b.Resolve, a);
  }

  const ALL_CONTRACTS := {
    JettonMasterC, TreasuryC, StakingPoolC, StakingLockC, StakingMasterC, TimelockC, GovernorC,
    VestingDeveloperC, VestingEcosystemC, VestingReserveC}

  lemma AnyContract(c: Contract)
    ensures c in ALL_CONTRACTS
  {
  }

  /** What the launch sets up apart from the ledger, field by field of the book. */
  ghost predicate SetUpByField(b: AddressBook, finalize: bool, w: World) {
    && w.live == ALL_CONTRACTS
    && w.poolMaster == Some(b.stakingMaster) && w.masterJettonWallet == Some(b.masterJettonWallet)
    && w.governorAddr == b.governor
    && w.emissionFunded == 300_000_000_000 && w.unrelayed == 0 && w.late == multiset{}
    && w.feeDestinations == Some((b.stakingPool, b.treasury))
    && w.excluded == {b.treasury, b.stakingPool, b.stakingMaster, b.vestingDeveloper, b.vestingEcosystem,
                      b.vestingReserve, b.liquidityHolder}
    && w.feeActive == w.excluded + {b.airdropHolder}
    && w.jettonTimelock == b.timelock
    && w.admin == (if finalize then REVOKED_ADMIN else b.timelock)
    && w.mintable == !finalize && w.record == Some(finalize)
  }

  lemma DoneIsSetUp(b: AddressBook, finalize: bool, done: set<Step>)
    requires b.DistinctReceivers() && forall t :: Matches(b, finalize, done, t)
    ensures SetUpByField(b, finalize, WorldOf(b, done))
  {
    EverythingWired(b, finalize, done);
    AuthorityListed(b, finalize, done);
    forall c ensures c in LiveIn(done) { EverythingDeployed(b, finalize, done, c); }
    forall a ensures a in ExcludedIn(done) <==> a in b.ExcludedOwners() { ExactlyExcluded(b, finalize, done, a); }
    forall a ensures a in ActiveIn(done) <==> a in b.FeeConfigOwners() { ExactlyExcluded(b, finalize, done, a); }
    forall c { AnyContract(c); }
  }

  /**
   * What an uninterrupted launch leaves: 7 BURN at the developer vault, 200 at the airdrop holder, 300 at the pool, 150
   * at the ecosystem vault, 300 at the liquidity holder, 43 at the reserve vault and nothing anywhere else; all
   * contracts live and wired; the fee set-up complete; and all authority handed on.
   */
  lemma FullRunOutcome(b: AddressBook, finalize: bool)
    requires b.DistinctReceivers() && b.Valid()
    ensures var w := FullRun(b, finalize, Untouched(b)).world;
      && (forall k: nat :: k < |MINT_ALLOCATIONS| ==> Get(w.balances, b.ReceiverOf(k)) == AmountOf(k))
      && HoldsPlan(b, w.balances) && w.totalSupply == Total(w.balances) == MAX_SUPPLY_NANO
      && Get(w.balances, b.vestingDeveloper) == 7 * NANO && Get(w.balances, b.airdropHolder) == 200 * NANO
      && Get(w.balances, b.stakingPool) == 300 * NANO && Get(w.balances, b.vestingEcosystem) == 150 * NANO
      && Get(w.balances, b.liquidityHolder) == 300 * NANO && Get(w.balances, b.vestingReserve) == 43 * NANO
      && SetUpByField(b, finalize, w)
  {
    var done := FullRunWorld(b, finalize);
    EverythingMinted(b, finalize, done);
    EverythingDelivered(b, finalize, done);
    DeliveredByField(b, finalize, done);
    DoneIsSetUp(b, finalize, done);
    SixFields(b, BalancesIn(b, done));
    var history := FirstLaunch(b, finalize);
    HistoryIsSafe(b, history);
  }

  lemma SixFields(b: AddressBook, balances: Balances)
    requires b.DistinctReceivers() && HoldsPlan(b, balances)
    ensures Get(balances, b.vestingDeveloper) == 7 * NANO && Get(balances, b.airdropHolder) == 200 * NANO
    ensures Get(balances, b.stakingPool) == 300 * NANO && Get(balances, b.vestingEcosystem) == 150 * NANO
    ensures Get(balances, b.liquidityHolder) == 300 * NANO && Get(balances, b.vestingReserve) == 43 * NANO
  {
    forall j, k | 0 <= j < k < |MINT_ALLOCATIONS| ensures b.ReceiverOf(j) != b.ReceiverOf(k) {
    }
    assert b.ReceiverOf(0) == b.vestingDeveloper && b.ReceiverOf(1) == b.airdropHolder;
    assert b.ReceiverOf(2) == b.stakingPool && b.ReceiverOf(3) == b.vestingEcosystem;
    assert b.ReceiverOf(4) == b.liquidityHolder && b.ReceiverOf(5) == b.vestingReserve;
  }
}
