/**
 * The bootstrap script: a list of steps, each one probe of the chain followed by at most
 * one message. A run may crash before any step, any message may fail to land or land late,
 * and any read of a jetton wallet may fail.
 */
module Script {
  import opened Common
  import opened Sums
  import opened Allocations
  import opened Chain

  datatype Step =
    | Deploy(c: Contract)
    | Wire
    | SetJettonWallet
    | PointGovernor
    | MintTo(k: nat)
    | FeeDestinations
    | Exclude(holder: Address)
    | Sync(owner: Address)
    | RequireActive(owner: Address)
    | HandOverAdmin
    | HandOverTimelock
    | VerifyOwner(owner: Address, expectedNano: nat)
    | VerifyEmission
    | VerifySupply
    | StopMinting
    | RevokeAdmin
    | Record(finalized: bool)

  /** What the idempotency probe of a step decides. */
  datatype Decision = Skip | Send(msg: Msg) | Refuse | Save(finalized: bool)

  function SendUnless(applied: bool, m: Msg): Decision {
    if applied then Skip else Send(m)
  }

  /** Contracts whose getters the probe reads; a getter of a missing contract throws. */
  function Reads(t: Step): set<Contract> {
    match t
    case Wire => {StakingPoolC}
    case SetJettonWallet => {StakingMasterC}
    case PointGovernor => {StakingMasterC}
    case MintTo(k) => if k == EMISSION then {StakingMasterC} else {}
    case FeeDestinations => {JettonMasterC}
    case Exclude(_) => {JettonMasterC}
    case HandOverAdmin => {JettonMasterC}
    case HandOverTimelock => {JettonMasterC}
    case VerifyEmission => {StakingMasterC}
    case VerifySupply => {JettonMasterC}
    case StopMinting => {JettonMasterC}
    case RevokeAdmin => {JettonMasterC}
    case _ => {}
  }

  function MintDecision(b: AddressBook, k: nat, w: World): Decision
    requires k < |MINT_ALLOCATIONS|
  {
    var balance := Get(w.balances, b.ReceiverOf(k));
    if k != EMISSION then
      if balance == AmountOf(k) then Skip else if balance != 0 then Refuse else Send(Mint(k))
    else
      if w.emissionFunded >= AmountOf(k) then Skip
      else if w.emissionFunded != 0 || balance != 0 then Refuse
      else Send(Mint(k))
  }

  function Probe(b: AddressBook, t: Step, w: World): Decision {
    if !(Reads(t) <= w.live) then Refuse
    else match t
      case Deploy(c) => SendUnless(c in w.live, DeployContract(c))
      case Wire => SendUnless(w.poolMaster == Some(b.stakingMaster), WireStakingMaster(b.stakingMaster))
      case SetJettonWallet =>
        SendUnless(w.masterJettonWallet == Some(b.masterJettonWallet), SetMasterJettonWallet(b.masterJettonWallet))
      case PointGovernor =>
        if w.governorAddr == b.governor then Skip
        else if w.governorAddr == b.deployer then Send(SetGovernor(b.governor))
        else Refuse
      case MintTo(k) => if k < |MINT_ALLOCATIONS| then MintDecision(b, k, w) else Refuse
      case FeeDestinations =>
        SendUnless(w.feeDestinations == Some((b.stakingPool, b.treasury)),
                   SetFeeDestinations(b.stakingPool, b.treasury))
      case Exclude(h) => SendUnless(h in w.excluded, AddExcluded(h))
      case Sync(o) => SendUnless(o in w.feeActive, SyncFeeConfigToWallet(o))
      case RequireActive(o) => if o in w.feeActive then Skip else Refuse
      case HandOverAdmin => SendUnless(w.admin == b.timelock, ChangeOwner(b.timelock))
      case HandOverTimelock =>
        if w.jettonTimelock == b.timelock then Skip
        else if w.jettonTimelock == b.deployer then Send(SetTimelock(b.timelock))
        else Refuse
      case VerifyOwner(o, expected) => if Get(w.balances, o) == expected then Skip else Refuse
      case VerifyEmission => if w.emissionFunded == AmountOf(EMISSION) then Skip else Refuse
      case VerifySupply => if w.totalSupply == MAX_SUPPLY_NANO then Skip else Refuse
      case StopMinting =>
        if !w.mintable then Skip else if w.admin == b.deployer then Send(Msg.CloseMint) else Refuse
      case RevokeAdmin =>
        if w.admin == REVOKED_ADMIN then Skip
        else if w.admin == b.deployer then Send(ChangeOwner(REVOKED_ADMIN))
        else Refuse
      case Record(f) => Save(f)
  }

  /** Steps that poll the chain after sending and throw when the effect does not show. */
  predicate Confirmed(t: Step, w: World) {
    match t
    case Deploy(c) => c in w.live
    case MintTo(k) => k == EMISSION ==> w.emissionFunded >= AmountOf(k)
    case StopMinting => !w.mintable
    case RevokeAdmin => w.admin == REVOKED_ADMIN
    case _ => true
  }

  /** What a step sees: a failed read of a jetton wallet counts as an empty wallet without a fee config. */
  function Seen(w: World, blind: bool): World {
    if blind then w.(balances := map[], feeActive := {}) else w
  }

  /** A step throws when a contract whose getter it calls is missing; wallet reads and deployments never throw. */
  lemma MissingContractThrows(b: AddressBook, t: Step, w: World, blind: bool)
    ensures t.Wire? && StakingPoolC !in w.live ==> Probe(b, t, Seen(w, blind)) == Refuse
    ensures t.SetJettonWallet? || t.PointGovernor? || t == MintTo(EMISSION) || t.VerifyEmission? ==>
      (StakingMasterC !in w.live ==> Probe(b, t, Seen(w, blind)) == Refuse)
    ensures t.FeeDestinations? || t.Exclude? || t.HandOverAdmin? || t.HandOverTimelock? ==>
      (JettonMasterC !in w.live ==> Probe(b, t, Seen(w, blind)) == Refuse)
    ensures t.VerifySupply? || t.StopMinting? || t.RevokeAdmin? ==>
      (JettonMasterC !in w.live ==> Probe(b, t, Seen(w, blind)) == Refuse)
    ensures t.Deploy? || t.Sync? ==> Probe(b, t, Seen(w, blind)) != Refuse
  {
  }

  datatype StepResult = StepResult(world: World, ok: bool, sent: seq<Msg>)

  /** One step; `blind` says that its wallet read fails. */
  function Perform(b: AddressBook, t: Step, w: World, d: Delivery, blind: bool): StepResult {
    match Probe(b, t, Seen(w, blind))
    case Skip => StepResult(w, true, [])
    case Refuse => StepResult(w, false, [])
    case Save(f) => StepResult(w.(record := Some(f)), true, [])
    case Send(m) => var w' := Transmit(b, m, w, d); StepResult(w', Confirmed(t, w'), [m])
  }

  // ----- Runs -----

  /**
   * The script crashes before a step, or goes on: what arrives before it, what becomes of its message and of its
   * read.
   */
  datatype Fate = Crash | Go(arrivals: seq<Arrival>, delivery: Delivery, blind: bool)

  function Play(b: AddressBook, t: Step, w: World, f: Fate): StepResult
    requires f.Go?
  {
    Perform(b, t, Arrivals(b, f.arrivals, w), f.delivery, f.blind)
  }

  datatype End = Done | Refused | Crashed

  datatype RunResult = RunResult(world: World, end: End, sent: seq<Msg>)

  /** Runs a step list; a run with no fate left has crashed. */
  function Run(b: AddressBook, steps: seq<Step>, w: World, fates: seq<Fate>): RunResult {
    if steps == [] then RunResult(w, Done, [])
    else if fates == [] || fates[0].Crash? then RunResult(w, Crashed, [])
    else
      var s := Play(b, steps[0], w, fates[0]);
      if !s.ok then RunResult(s.world, Refused, s.sent)
      else
        var r := Run(b, steps[1..], s.world, fates[1..]);
        r.(sent := s.sent + r.sent)
  }

  /** Continues a run that completed with the steps `q` and the fates that are left. */
  function Continue(b: AddressBook, r: RunResult, q: seq<Step>, fates: seq<Fate>): RunResult {
    if r.end != Done then r
    else
      var r2 := Run(b, q, r.world, fates);
      r2.(sent := r.sent + r2.sent)
  }

  function Prepend(sent: seq<Msg>, r: RunResult): RunResult {
    r.(sent := sent + r.sent)
  }

  lemma RunCons(b: AddressBook, steps: seq<Step>, w: World, fates: seq<Fate>)
    requires steps != [] && fates != [] && fates[0].Go?
    ensures var s := Play(b, steps[0], w, fates[0]);
      Run(b, steps, w, fates) ==
        if s.ok then Prepend(s.sent, Run(b, steps[1..], s.world, fates[1..])) else RunResult(s.world, Refused, s.sent)
  {
  }

  lemma ContinuePrepended(b: AddressBook, sent: seq<Msg>, r: RunResult, q: seq<Step>, fates: seq<Fate>)
    ensures Continue(b, Prepend(sent, r), q, fates) == Prepend(sent, Continue(b, r, q, fates))
  {
    if r.end == Done {
      var r2 := Run(b, q, r.world, fates);
      assert (sent + r.sent) + r2.sent == sent + (r.sent + r2.sent);
    }
  }

  /** Running a concatenation is running its parts, the second one with the fates that are left. */
  lemma {:induction false} RunAppend(b: AddressBook, p: seq<Step>, q: seq<Step>, w: World, fates: seq<Fate>)
    ensures Run(b, p, w, fates).end == Done ==> |p| <= |fates|
    ensures Run(b, p + q, w, fates) ==
      Continue(b, Run(b, p, w, fates), q, if |p| <= |fates| then fates[|p|..] else [])
    decreases |p|
  {
    if p == [] {
      assert p + q == q && fates[0..] == fates;
    } else if fates == [] || fates[0].Crash? {
    } else {
      var s := Play(b, p[0], w, fates[0]);
      assert (p + q)[1..] == p[1..] + q;
      RunCons(b, p, w, fates);
      RunCons(b, p + q, w, fates);
      if s.ok {
        RunAppend(b, p[1..], q, s.world, fates[1..]);
        var r := Run(b, p[1..], s.world, fates[1..]);
        var left := if |p| <= |fates| then fates[|p|..] else [];
        assert |p| <= |fates| ==> fates[1..][|p| - 1..] == left;
        ContinuePrepended(b, s.sent, r, q, left);
      }
    }
  }

  // ----- The step list of one deployment -----

  function DeploySteps(cs: seq<Contract>): (steps: seq<Step>)
    ensures |steps| == |cs| && forall i :: 0 <= i < |cs| ==> steps[i] == Deploy(cs[i])
  {
    seq(|cs|, i requires 0 <= i < |cs| => Deploy(cs[i]))
  }

  function ExcludeSteps(owners: seq<Address>): (steps: seq<Step>)
    ensures |steps| == |owners| && forall i :: 0 <= i < |owners| ==> steps[i] == Exclude(owners[i])
  {
    seq(|owners|, i requires 0 <= i < |owners| => Exclude(owners[i]))
  }

  function SyncSteps(owners: seq<Address>): (steps: seq<Step>)
    ensures |steps| == |owners| && forall i :: 0 <= i < |owners| ==> steps[i] == Sync(owners[i])
  {
    seq(|owners|, i requires 0 <= i < |owners| => Sync(owners[i]))
  }

  function ActiveSteps(owners: seq<Address>): (steps: seq<Step>)
    ensures |steps| == |owners| && forall i :: 0 <= i < |owners| ==> steps[i] == RequireActive(owners[i])
  {
    seq(|owners|, i requires 0 <= i < |owners| => RequireActive(owners[i]))
  }

  function MintSteps(): (steps: seq<Step>)
    ensures |steps| == |MINT_ALLOCATIONS| && forall k :: 0 <= k < |steps| ==> steps[k] == MintTo(k)
  {
    seq(|MINT_ALLOCATIONS|, k requires 0 <= k < |MINT_ALLOCATIONS| => MintTo(k))
  }

  function VerifySteps(b: AddressBook): (steps: seq<Step>)
    ensures var plan := Aggregated(MINT_ALLOCATIONS, b.Resolve);
      |steps| == |plan| && forall i :: 0 <= i < |plan| ==> steps[i] == VerifyOwner(plan[i].owner, plan[i].expectedNano)
  {
    var plan := Aggregated(MINT_ALLOCATIONS, b.Resolve);
    seq(|plan|, i requires 0 <= i < |plan| => VerifyOwner(plan[i].owner, plan[i].expectedNano))
  }

  const CORE_CONTRACTS: seq<Contract> := [JettonMasterC, TreasuryC, StakingPoolC, StakingLockC, StakingMasterC]
  const GOVERNANCE_CONTRACTS: seq<Contract> := [TimelockC, GovernorC]
  const VESTING_CONTRACTS: seq<Contract> := [VestingDeveloperC, VestingEcosystemC, VestingReserveC]

  function SetupSteps(): seq<Step> {
    DeploySteps(CORE_CONTRACTS) + [Wire, SetJettonWallet] + DeploySteps(GOVERNANCE_CONTRACTS)
    + [PointGovernor] + DeploySteps(VESTING_CONTRACTS)
  }

  function FeeSteps(b: AddressBook): seq<Step> {
    [FeeDestinations] + ExcludeSteps(b.ExcludedOwners()) + SyncSteps(b.FeeConfigOwners())
    + ActiveSteps(b.FeeConfigOwners())
  }

  function AuthoritySteps(finalize: bool): seq<Step> {
    (if finalize then [] else [HandOverAdmin]) + [HandOverTimelock]
  }

  function FinalizeSteps(b: AddressBook): seq<Step> {
    VerifySteps(b) + [VerifyEmission, VerifySupply, StopMinting, RevokeAdmin]
  }

  /** `deployBurnStack` with `force`, dry run and governance slice off. */
  function Program(b: AddressBook, finalize: bool): seq<Step> {
    SetupSteps() + MintSteps() + FeeSteps(b) + AuthoritySteps(finalize)
    + (if finalize then FinalizeSteps(b) else []) + [Record(finalize)]
  }

  /** One launch of the script, or an arrival between two launches. */
  datatype Event = Launch(finalize: bool, fates: seq<Fate>) | Arrives(arrival: Arrival)

  function After(b: AddressBook, w: World, history: seq<Event>): World {
    if history == [] then w
    else
      var before := After(b, w, history[..|history| - 1]);
      match history[|history| - 1]
      case Launch(finalize, fates) => Run(b, Program(b, finalize), before, fates).world
      case Arrives(arrival) => Arrive(b, arrival, before)
  }

  /** World reached from the untouched chain. */
  function Reached(b: AddressBook, history: seq<Event>): World {
    After(b, Untouched(b), history)
  }
}
