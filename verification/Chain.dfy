/**
 * The chain as the bootstrap script sees it: contract wiring, jetton balances, and the
 * guards with which the contracts accept or bounce the deployer's messages.
 */
module Chain {
  import opened Common
  import opened Sums
  import opened Allocations

  /** Emission budget at which `StakingMaster.emissionFunded` is clamped. */
  const TOTAL_EMISSION_NANO: nat := 300 * NANO
  const MAX_EXCLUDED_ADDRESSES: nat := 64

  /** The unspendable zero address: an admin set to it is revoked. */
  const REVOKED_ADMIN: Address := Address(0, 0)

  datatype Contract =
    JettonMasterC | TreasuryC | StakingPoolC | StakingLockC | StakingMasterC | TimelockC | GovernorC
    | VestingDeveloperC | VestingEcosystemC | VestingReserveC

  /** Everything one deployment resolves before it touches the chain. */
  datatype AddressBook = AddressBook(
    deployer: Address,
    treasury: Address,
    stakingPool: Address,
    stakingMaster: Address,
    masterJettonWallet: Address,
    governor: Address,
    timelock: Address,
    vestingDeveloper: Address,
    vestingEcosystem: Address,
    vestingReserve: Address,
    airdropHolder: Address,
    liquidityHolder: Address)
  {
    /** Wallets, contracts and the zero address are different accounts. */
    ghost predicate Valid() {
      && deployer != REVOKED_ADMIN && timelock != REVOKED_ADMIN
      && deployer != timelock && deployer != governor
    }

    function Resolve(r: Receiver): Address {
      match r
      case VestingDeveloper => vestingDeveloper
      case AirdropHolder => airdropHolder
      case StakingPool => stakingPool
      case VestingEcosystem => vestingEcosystem
      case LiquidityHolder => liquidityHolder
      case VestingReserve => vestingReserve
    }

    /** Owner that receives allocation `k` of the mint plan. */
    function ReceiverOf(k: nat): Address
      requires k < |MINT_ALLOCATIONS|
    {
      Resolve(MINT_ALLOCATIONS[k].receiver)
    }

    function ExcludedOwners(): seq<Address> {
      [treasury, stakingPool, stakingMaster, vestingDeveloper, vestingEcosystem, vestingReserve, liquidityHolder]
    }

    /** Excluded owners and the one minted owner that stays fee-bearing. */
    function FeeConfigOwners(): seq<Address> {
      ExcludedOwners() + [airdropHolder]
    }

    ghost predicate DistinctReceivers() {
      forall j, k :: 0 <= j < k < |MINT_ALLOCATIONS| ==> ReceiverOf(j) != ReceiverOf(k)
    }
  }

  function AmountOf(k: nat): (nano: nat)
    requires k < |MINT_ALLOCATIONS|
    ensures nano > 0
  {
    MINT_ALLOCATIONS[k].burnAmount * NANO
  }

  /** Index of the allocation that funds the staking emission. */
  const EMISSION: nat := 2

  datatype World = World(
    live: set<Contract>,
    poolMaster: Option<Address>,
    masterJettonWallet: Option<Address>,
    governorAddr: Address,
    emissionFunded: nat,
    /** jettons that reached the pool while their relay to the staking master has not landed */
    unrelayed: nat,
    balances: Balances,
    totalSupply: nat,
    mintable: bool,
    admin: Address,
    jettonTimelock: Address,
    feeDestinations: Option<(Address, Address)>,
    excluded: set<Address>,
    feeActive: set<Address>,
    /** how often each allocation has been minted */
    minted: multiset<nat>,
    /** `supplyFinalized` of the saved deployment file */
    record: Option<bool>,
    /** mints that were sent and have not landed; each may still do so */
    late: multiset<nat>)

  function Untouched(b: AddressBook): World {
    World({}, None, None, b.deployer, 0, 0, map[], 0, true, b.deployer, b.deployer, None, {}, {}, multiset{}, None,
      multiset{})
  }

  datatype Msg =
    | DeployContract(c: Contract)
    | WireStakingMaster(master: Address)
    | SetMasterJettonWallet(wallet: Address)
    | SetGovernor(governor: Address)
    | Mint(k: nat)
    | SetFeeDestinations(pool: Address, treasury: Address)
    | AddExcluded(holder: Address)
    | SyncFeeConfigToWallet(owner: Address)
    | ChangeOwner(newOwner: Address)
    | SetTimelock(newTimelock: Address)
    | CloseMint

  /** Messages that the jetton master takes only from its current timelock. */
  predicate TimelockGated(m: Msg) {
    m.SetFeeDestinations? || m.AddExcluded? || m.SyncFeeConfigToWallet? || m.SetTimelock?
  }

  predicate AdminGated(m: Msg) {
    m.Mint? || m.ChangeOwner? || m.CloseMint?
  }

  predicate TargetLive(m: Msg, w: World) {
    match m
    case DeployContract(_) => true
    case WireStakingMaster(_) => StakingPoolC in w.live
    case SetMasterJettonWallet(_) => StakingMasterC in w.live
    case SetGovernor(_) => StakingMasterC in w.live
    case _ => JettonMasterC in w.live
  }

  /** The receiving contract's own conditions on a message from the deployer. */
  predicate Accepts(b: AddressBook, m: Msg, w: World) {
    && TargetLive(m, w)
    && (TimelockGated(m) ==> w.jettonTimelock == b.deployer)
    && (AdminGated(m) ==> w.admin == b.deployer)
    && match m
       case WireStakingMaster(_) => w.poolMaster.None?
       case SetMasterJettonWallet(_) => w.masterJettonWallet.None?
       case SetGovernor(_) => w.governorAddr == b.deployer
       case Mint(k) => k < |MINT_ALLOCATIONS| && w.mintable && w.totalSupply + AmountOf(k) <= MAX_SUPPLY_NANO
       case AddExcluded(h) => h in w.excluded || |w.excluded| < MAX_EXCLUDED_ADDRESSES
       case SyncFeeConfigToWallet(_) => w.feeDestinations.Some?
       case _ => true
  }

  function Clamp(funded: nat): nat {
    if funded > TOTAL_EMISSION_NANO then TOTAL_EMISSION_NANO else funded
  }

  /** Effect of an accepted message; `relayed` says whether the emission relay arrives as well. */
  function Apply(b: AddressBook, m: Msg, w: World, relayed: bool): World
    requires Accepts(b, m, w)
  {
    match m
    case DeployContract(c) => w.(live := w.live + {c})
    case WireStakingMaster(a) => w.(poolMaster := Some(a))
    case SetMasterJettonWallet(a) => w.(masterJettonWallet := Some(a))
    case SetGovernor(a) => w.(governorAddr := a)
    case Mint(k) =>
      var w' := w.(
        balances := Credit(w.balances, b.ReceiverOf(k), AmountOf(k)),
        totalSupply := w.totalSupply + AmountOf(k),
        minted := w.minted + multiset{k});
      if k != EMISSION then w'
      else if relayed && w.poolMaster.Some? then w'.(emissionFunded := Clamp(w.emissionFunded + AmountOf(k)))
      else w'.(unrelayed := w.unrelayed + AmountOf(k))
    case SetFeeDestinations(p, t) => w.(feeDestinations := Some((p, t)))
    case AddExcluded(h) => w.(excluded := w.excluded + {h})
    case SyncFeeConfigToWallet(o) => w.(feeActive := w.feeActive + {o})
    case ChangeOwner(a) => w.(admin := a)
    case SetTimelock(a) => w.(jettonTimelock := a)
    case CloseMint => w.(mintable := false)
  }

  /** A sent message lands, lands without its relay, or does not land for now: the wallet skipped it, or it is late. */
  datatype Delivery = Lands | LandsUnrelayed | Lost

  /** A mint that did not land may still arrive later. */
  function Transmit(b: AddressBook, m: Msg, w: World, d: Delivery): World {
    if d.Lost? then (if m.Mint? then w.(late := w.late + multiset{m.k}) else w)
    else if !Accepts(b, m, w) then w
    else Apply(b, m, w, d.Lands?)
  }

  /** What may arrive on its own: a mint sent before, with or without its relay, or a relay that was missing. */
  datatype Arrival = MintArrives(k: nat, relayed: bool) | RelayArrives

  /** A relay that was still missing arrives at the staking master. */
  function LateRelay(w: World): World {
    w.(emissionFunded := Clamp(w.emissionFunded + w.unrelayed), unrelayed := 0)
  }

  function Arrive(b: AddressBook, a: Arrival, w: World): World {
    match a
    case RelayArrives => LateRelay(w)
    case MintArrives(k, relayed) =>
      if k !in w.late then w
      else Transmit(b, Mint(k), w.(late := w.late - multiset{k}), if relayed then Lands else LandsUnrelayed)
  }

  function Arrivals(b: AddressBook, arrivals: seq<Arrival>, w: World): World {
    if arrivals == [] then w else Arrivals(b, arrivals[1..], Arrive(b, arrivals[0], w))
  }
}
