/**
 * The bootstrap as it runs: probes and guarded sends against a mutable chain. An error
 * thrown on the way is the sticky field `end`; everything after it is skipped.
 */
module Bootstrap {
  import opened Common
  import opened Sums
  import opened Allocations
  import opened Chain
  import opened Script
  import opened BootstrapSafety

  /** From result `r0`, performing `p` with fates `f0` gives `r1` and leaves the fates `f1`. */
  ghost predicate Continues(b: AddressBook, r0: RunResult, f0: seq<Fate>, p: seq<Step>, r1: RunResult, f1: seq<Fate>) {
    && r1 == Continue(b, r0, p, f0)
    && (r1.end == Done ==> |p| <= |f0| && f1 == f0[|p|..])
  }

  lemma DropTwice(f: seq<Fate>, m: nat, n: nat)
    requires m + n <= |f|
    ensures f[m..][n..] == f[m + n..]
  {
  }

  /** One more step of a list. */
  lemma ContinuesStep(b: AddressBook, r0: RunResult, f0: seq<Fate>, steps: seq<Step>, i: nat, r1: RunResult,
                      f1: seq<Fate>, r2: RunResult, f2: seq<Fate>)
    requires i < |steps| && Continues(b, r0, f0, steps[..i], r1, f1) && Continues(b, r1, f1, [steps[i]], r2, f2)
    ensures Continues(b, r0, f0, steps[..i + 1], r2, f2)
  {
    ContinuesAppend(b, r0, f0, steps[..i], r1, f1, [steps[i]], r2, f2);
    assert steps[..i + 1] == steps[..i] + [steps[i]];
  }

  lemma ContinueTwice(b: AddressBook, r: RunResult, f: seq<Fate>, p: seq<Step>, q: seq<Step>)
    requires r.end == Done
    ensures Continue(b, r, p + q, f) == Continue(b, Continue(b, r, p, f), q, if |p| <= |f| then f[|p|..] else [])
  {
    var left := if |p| <= |f| then f[|p|..] else [];
    var r1 := Run(b, p, r.world, f);
    RunAppend(b, p, q, r.world, f);
    ContinuePrepended(b, r.sent, r1, q, left);
    assert Continue(b, r, p, f) == Prepend(r.sent, r1);
    assert Continue(b, r, p + q, f) == Prepend(r.sent, Continue(b, r1, q, left));
  }

  lemma ContinuesAppend(b: AddressBook, r0: RunResult, f0: seq<Fate>, p: seq<Step>, r1: RunResult, f1: seq<Fate>,
                        q: seq<Step>, r2: RunResult, f2: seq<Fate>)
    requires Continues(b, r0, f0, p, r1, f1) && Continues(b, r1, f1, q, r2, f2)
    ensures Continues(b, r0, f0, p + q, r2, f2)
  {
    if r0.end == Done {
      ContinueTwice(b, r0, f0, p, q);
      if r2.end == Done { DropTwice(f0, |p|, |q|); }
    }
  }

  lemma ContinuesNothing(b: AddressBook, r: RunResult, f: seq<Fate>)
    ensures Continues(b, r, f, [], r, f)
  {
    assert r.sent + [] == r.sent && f[0..] == f;
  }

  class Deployer {
    const book: AddressBook
    var world: World
    var fates: seq<Fate>
    var sent: seq<Msg>
    var end: End

    constructor (book: AddressBook, world: World, fates: seq<Fate>)
      ensures this.book == book && this.world == world && this.fates == fates && sent == [] && end == Done
    {
      this.book, this.world, this.fates, sent, end := book, world, fates, [], Done;
    }

    ghost function Result(): RunResult
      reads this
    {
      RunResult(world, end, sent)
    }

    /**
     * Starts a step: the process may be gone, messages that were on their way arrive first, and a getter of a missing
     * contract throws. `unread` says that wallet reads of this step fail.
     */
    method Begin(t: Step) returns (d: Delivery, unread: bool)
      requires end == Done
      modifies this`world, this`fates, this`end
      ensures end == Done ==>
        && old(fates) != [] && old(fates)[0].Go? && d == old(fates)[0].delivery && unread == old(fates)[0].blind
        && world == Arrivals(book, old(fates)[0].arrivals, old(world)) && fates == old(fates)[1..]
        && Reads(t) <= world.live
      ensures end != Done ==> RunResult(world, end, []) == Run(book, [t], old(world), old(fates))
    {
      d, unread := Lost, false;
      if fates == [] || fates[0].Crash? {
        end := Crashed;
        return;
      }
      world := Arrivals(book, fates[0].arrivals, world);
      d, unread := fates[0].delivery, fates[0].blind;
      fates := fates[1..];
      if !(Reads(t) <= world.live) {
        end := Refused;
      }
    }

    /** A read that fails counts as an empty wallet, as one that is not deployed does. */
    method ReadJettonWalletBalance(owner: Address, unread: bool) returns (balance: nat)
      ensures balance == Get(Seen(world, unread).balances, owner)
    {
      if unread {
        return 0;
      }
      return Get(world.balances, owner);
    }

    /** A read that fails counts as a wallet without a fee config. */
    method IsWalletFeeConfigSynced(owner: Address, unread: bool) returns (synced: bool)
      ensures synced <==> owner in Seen(world, unread).feeActive
    {
      if unread {
        return false;
      }
      return owner in world.feeActive;
    }

    method Transfer(m: Msg, d: Delivery)
      modifies this`world, this`sent
      ensures world == Transmit(book, m, old(world), d) && sent == old(sent) + [m]
    {
      world := Transmit(book, m, world, d);
      sent := sent + [m];
    }

    /** What one step has to do: exactly what the step list says. */
    lemma StepDone(t: Step, r0: RunResult, f0: seq<Fate>)
      requires r0.end == Done && f0 != [] && f0[0].Go? && fates == f0[1..]
      requires var f := f0[0];
        var w := Arrivals(book, f.arrivals, r0.world);
        match Probe(book, t, Seen(w, f.blind))
        case Skip => world == w && sent == r0.sent && end == Done
        case Refuse => world == w && sent == r0.sent && end == Refused
        case Save(x) => world == w.(record := Some(x)) && sent == r0.sent && end == Done
        case Send(m) =>
          && world == Transmit(book, m, w, f.delivery) && sent == r0.sent + [m]
          && end == if Confirmed(t, world) then Done else Refused
      ensures Continues(book, r0, f0, [t], Result(), fates)
    {
      RunCons(book, [t], r0.world, f0);
      var s := Play(book, t, r0.world, f0[0]);
      assert s.sent + [] == s.sent && r0.sent + [] == r0.sent;
    }

    lemma StepNotBegun(t: Step, r0: RunResult, f0: seq<Fate>)
      requires r0.end == Done && end != Done && sent == r0.sent
      requires RunResult(world, end, []) == Run(book, [t], r0.world, f0)
      ensures Continues(book, r0, f0, [t], Result(), fates)
    {
      assert r0.sent + [] == r0.sent;
    }

    method DeployIfNeeded(c: Contract)
      modifies this
      ensures Continues(book, old(Result()), old(fates), [Deploy(c)], Result(), fates)
    {
      if end != Done {
        return;
      }
      var d, unread := Begin(Deploy(c));
      if end != Done {
        StepNotBegun(Deploy(c), old(Result()), old(fates));
        return;
      }
      if c !in world.live {
        Transfer(DeployContract(c), d);
        if c !in world.live {
          end := Refused;
        }
      }
      StepDone(Deploy(c), old(Result()), old(fates));
    }

    /** The steps of the form "send unless the probe says it is applied", with nothing to confirm. */
    method SendUnlessApplied(t: Step)
      requires t.Wire? || t.SetJettonWallet? || t.FeeDestinations? || t.Exclude? || t.Sync? || t.HandOverAdmin?
      modifies this
      ensures Continues(book, old(Result()), old(fates), [t], Result(), fates)
    {
      if end != Done {
        return;
      }
      var d, unread := Begin(t);
      if end != Done {
        StepNotBegun(t, old(Result()), old(fates));
        return;
      }
      match t {
        case Wire =>
          if world.poolMaster != Some(book.stakingMaster) {
            Transfer(WireStakingMaster(book.stakingMaster), d);
          }
        case SetJettonWallet =>
          if world.masterJettonWallet != Some(book.masterJettonWallet) {
            Transfer(SetMasterJettonWallet(book.masterJettonWallet), d);
          }
        case FeeDestinations =>
          if world.feeDestinations != Some((book.stakingPool, book.treasury)) {
            Transfer(SetFeeDestinations(book.stakingPool, book.treasury), d);
          }
        case Exclude(holder) =>
          if holder !in world.excluded {
            Transfer(AddExcluded(holder), d);
          }
        case Sync(owner) =>
          var synced := IsWalletFeeConfigSynced(owner, unread);
          if !synced {
            Transfer(SyncFeeConfigToWallet(owner), d);
          }
        case HandOverAdmin =>
          if world.admin != book.timelock {
            Transfer(ChangeOwner(book.timelock), d);
          }
      }
      StepDone(t, old(Result()), old(fates));
    }

    method PointMasterToGovernor()
      modifies this
      ensures Continues(book, old(Result()), old(fates), [PointGovernor], Result(), fates)
    {
      if end != Done {
        return;
      }
      var d, unread := Begin(PointGovernor);
      if end != Done {
        StepNotBegun(PointGovernor, old(Result()), old(fates));
        return;
      }
      if world.governorAddr == book.governor {
      } else if world.governorAddr == book.deployer {
        Transfer(SetGovernor(book.governor), d);
      } else {
        end := Refused;
      }
      StepDone(PointGovernor, old(Result()), old(fates));
    }

    method EnsureMint(k: nat)
      requires k < |MINT_ALLOCATIONS| && k != EMISSION
      modifies this
      ensures Continues(book, old(Result()), old(fates), [MintTo(k)], Result(), fates)
    {
      if end != Done {
        return;
      }
      var d, unread := Begin(MintTo(k));
      if end != Done {
        StepNotBegun(MintTo(k), old(Result()), old(fates));
        return;
      }
      var expected := AmountOf(k);
      var balance := ReadJettonWalletBalance(book.ReceiverOf(k), unread);
      if balance == expected {
      } else if balance != 0 {
        end := Refused;
      } else {
        Transfer(Mint(k), d);
      }
      StepDone(MintTo(k), old(Result()), old(fates));
    }

    method EnsureStakingEmissionMint()
      modifies this
      ensures Continues(book, old(Result()), old(fates), [MintTo(EMISSION)], Result(), fates)
    {
      if end != Done {
        return;
      }
      var d, unread := Begin(MintTo(EMISSION));
      if end != Done {
        StepNotBegun(MintTo(EMISSION), old(Result()), old(fates));
        return;
      }
      var expected := AmountOf(EMISSION);
      var fundedBefore := world.emissionFunded;
      if fundedBefore >= expected {
      } else if fundedBefore != 0 {
        end := Refused;
      } else {
        var balance := ReadJettonWalletBalance(book.ReceiverOf(EMISSION), unread);
        if balance != 0 {
          end := Refused;
        } else {
          Transfer(Mint(EMISSION), d);
          if world.emissionFunded < expected {
            end := Refused;
          }
        }
      }
      StepDone(MintTo(EMISSION), old(Result()), old(fates));
    }

    method HandOverJettonTimelock()
      modifies this
      ensures Continues(book, old(Result()), old(fates), [HandOverTimelock], Result(), fates)
    {
      if end != Done {
        return;
      }
      var d, unread := Begin(HandOverTimelock);
      if end != Done {
        StepNotBegun(HandOverTimelock, old(Result()), old(fates));
        return;
      }
      if world.jettonTimelock == book.timelock {
      } else if world.jettonTimelock == book.deployer {
        Transfer(SetTimelock(book.timelock), d);
      } else {
        end := Refused;
      }
      StepDone(HandOverTimelock, old(Result()), old(fates));
    }

    /** A step that only reads: it passes or throws. */
    method Require(t: Step)
      requires t.RequireActive? || t.VerifyOwner? || t.VerifyEmission? || t.VerifySupply?
      modifies this
      ensures Continues(book, old(Result()), old(fates), [t], Result(), fates)
    {
      if end != Done {
        return;
      }
      var d, unread := Begin(t);
      if end != Done {
        StepNotBegun(t, old(Result()), old(fates));
        return;
      }
      var holds;
      match t {
        case RequireActive(owner) =>
          holds := IsWalletFeeConfigSynced(owner, unread);
        case VerifyOwner(owner, expectedNano) =>
          var balance := ReadJettonWalletBalance(owner, unread);
          holds := balance == expectedNano;
        case VerifyEmission =>
          holds := world.emissionFunded == AmountOf(EMISSION);
        case _ =>
          holds := world.totalSupply == MAX_SUPPLY_NANO;
      }
      if !holds {
        end := Refused;
      }
      StepDone(t, old(Result()), old(fates));
    }

    method SaveDeployment(supplyFinalized: bool)
      modifies this
      ensures Continues(book, old(Result()), old(fates), [Record(supplyFinalized)], Result(), fates)
    {
      if end != Done {
        return;
      }
      var d, unread := Begin(Record(supplyFinalized));
      if end != Done {
        StepNotBegun(Record(supplyFinalized), old(Result()), old(fates));
        return;
      }
      world := world.(record := Some(supplyFinalized));
      StepDone(Record(supplyFinalized), old(Result()), old(fates));
    }

    // ----- Sections -----

    method DeployAll(cs: seq<Contract>)
      modifies this
      ensures Continues(book, old(Result()), old(fates), DeploySteps(cs), Result(), fates)
    {
      ghost var r0, f0, steps := Result(), fates, DeploySteps(cs);
      ContinuesNothing(book, r0, f0);
      assert steps[..0] == [];
      for i := 0 to |cs|
        invariant Continues(book, r0, f0, steps[..i], Result(), fates)
      {
        ghost var r1, f1 := Result(), fates;
        DeployIfNeeded(cs[i]);
        ContinuesStep(book, r0, f0, steps, i, r1, f1, Result(), fates);
      }
      assert steps[..|cs|] == steps;
    }

    method DeployContracts()
      modifies this
      ensures Continues(book, old(Result()), old(fates), SetupSteps(), Result(), fates)
    {
      ghost var r0, f0 := Result(), fates;
      DeployAll(CORE_CONTRACTS);
      ghost var p, r1, f1 := DeploySteps(CORE_CONTRACTS), Result(), fates;
      SendUnlessApplied(Wire);
      ContinuesAppend(book, r0, f0, p, r1, f1, [Wire], Result(), fates);
      p, r1, f1 := p + [Wire], Result(), fates;
      SendUnlessApplied(SetJettonWallet);
      ContinuesAppend(book, r0, f0, p, r1, f1, [SetJettonWallet], Result(), fates);
      p, r1, f1 := p + [SetJettonWallet], Result(), fates;
      DeployAll(GOVERNANCE_CONTRACTS);
      ContinuesAppend(book, r0, f0, p, r1, f1, DeploySteps(GOVERNANCE_CONTRACTS), Result(), fates);
      p, r1, f1 := p + DeploySteps(GOVERNANCE_CONTRACTS), Result(), fates;
      PointMasterToGovernor();
      ContinuesAppend(book, r0, f0, p, r1, f1, [PointGovernor], Result(), fates);
      p, r1, f1 := p + [PointGovernor], Result(), fates;
      DeployAll(VESTING_CONTRACTS);
      ContinuesAppend(book, r0, f0, p, r1, f1, DeploySteps(VESTING_CONTRACTS), Result(), fates);
      assert p + DeploySteps(VESTING_CONTRACTS) == SetupSteps();
    }

    method MintAllocations()
      modifies this
      ensures Continues(book, old(Result()), old(fates), MintSteps(), Result(), fates)
    {
      ghost var r0, f0, steps := Result(), fates, MintSteps();
      ContinuesNothing(book, r0, f0);
      assert steps[..0] == [];
      var mintedNano := 0;
      for k := 0 to |MINT_ALLOCATIONS|
        invariant Continues(book, r0, f0, steps[..k], Result(), fates)
        invariant mintedNano == PlanTotal(MINT_ALLOCATIONS[..k])
      {
        mintedNano := mintedNano + MINT_ALLOCATIONS[k].burnAmount * NANO;
        assert MINT_ALLOCATIONS[..k + 1][..k] == MINT_ALLOCATIONS[..k];
        ghost var r1, f1 := Result(), fates;
        if MINT_ALLOCATIONS[k].receiver == StakingPool {
          EnsureStakingEmissionMint();
        } else {
          EnsureMint(k);
        }
        ContinuesAppend(book, r0, f0, steps[..k], r1, f1, [steps[k]], Result(), fates);
        assert steps[..k + 1] == steps[..k] + [steps[k]];
      }
      assert steps[..|MINT_ALLOCATIONS|] == steps;
      // the script's own check of the plan against the cap cannot fail
      assert MINT_ALLOCATIONS[..|MINT_ALLOCATIONS|] == MINT_ALLOCATIONS;
      PlanIsWholeSupply();
      assert mintedNano == MAX_SUPPLY_NANO;
    }

    /** Runs one probe-and-send, or one required activation, per owner. */
    method ForEachOwner(steps: seq<Step>)
      requires forall i :: 0 <= i < |steps| ==> steps[i].Exclude? || steps[i].Sync? || steps[i].RequireActive?
      modifies this
      ensures Continues(book, old(Result()), old(fates), steps, Result(), fates)
    {
      ghost var r0, f0 := Result(), fates;
      ContinuesNothing(book, r0, f0);
      assert steps[..0] == [];
      for i := 0 to |steps|
        invariant Continues(book, r0, f0, steps[..i], Result(), fates)
      {
        ghost var r1, f1 := Result(), fates;
        if steps[i].RequireActive? {
          Require(steps[i]);
        } else {
          SendUnlessApplied(steps[i]);
        }
        ContinuesStep(book, r0, f0, steps, i, r1, f1, Result(), fates);
      }
      assert steps[..|steps|] == steps;
    }

    method ConfigureFees()
      modifies this
      ensures Continues(book, old(Result()), old(fates), FeeSteps(book), Result(), fates)
    {
      ghost var r0, f0 := Result(), fates;
      var excluded, owners := book.ExcludedOwners(), book.FeeConfigOwners();
      SendUnlessApplied(FeeDestinations);
      ghost var p, r1, f1 := [FeeDestinations], Result(), fates;
      ForEachOwner(ExcludeSteps(excluded));
      ContinuesAppend(book, r0, f0, p, r1, f1, ExcludeSteps(excluded), Result(), fates);
      p, r1, f1 := p + ExcludeSteps(excluded), Result(), fates;
      ForEachOwner(SyncSteps(owners));
      ContinuesAppend(book, r0, f0, p, r1, f1, SyncSteps(owners), Result(), fates);
      p, r1, f1 := p + SyncSteps(owners), Result(), fates;
      ForEachOwner(ActiveSteps(owners));
      ContinuesAppend(book, r0, f0, p, r1, f1, ActiveSteps(owners), Result(), fates);
    }

    method HandOver(finalize: bool)
      modifies this
      ensures Continues(book, old(Result()), old(fates), AuthoritySteps(finalize), Result(), fates)
    {
      ghost var r0, f0 := Result(), fates;
      if !finalize {
        SendUnlessApplied(HandOverAdmin);
        ghost var r1, f1 := Result(), fates;
        HandOverJettonTimelock();
        ContinuesAppend(book, r0, f0, [HandOverAdmin], r1, f1, [HandOverTimelock], Result(), fates);
      } else {
        HandOverJettonTimelock();
        assert AuthoritySteps(true) == [HandOverTimelock];
      }
    }

    method CloseMint()
      modifies this
      ensures Continues(book, old(Result()), old(fates), [StopMinting], Result(), fates)
    {
      if end != Done {
        return;
      }
      var d, unread := Begin(StopMinting);
      if end != Done {
        StepNotBegun(StopMinting, old(Result()), old(fates));
        return;
      }
      ghost var p := Probe(book, StopMinting, Seen(world, unread));
      if !world.mintable {
        assert p == Skip;
      } else if world.admin == book.deployer {
        assert p == Send(Msg.CloseMint);
        Transfer(Msg.CloseMint, d);
        if world.mintable {
          end := Refused;
        }
      } else {
        assert p == Refuse;
        end := Refused;
      }
      StepDone(StopMinting, old(Result()), old(fates));
    }

    method RevokeJettonAdmin()
      modifies this
      ensures Continues(book, old(Result()), old(fates), [RevokeAdmin], Result(), fates)
    {
      if end != Done {
        return;
      }
      var d, unread := Begin(RevokeAdmin);
      if end != Done {
        StepNotBegun(RevokeAdmin, old(Result()), old(fates));
        return;
      }
      ghost var p := Probe(book, RevokeAdmin, Seen(world, unread));
      if world.admin == REVOKED_ADMIN {
        assert p == Skip;
      } else if world.admin == book.deployer {
        assert p == Send(ChangeOwner(REVOKED_ADMIN));
        Transfer(ChangeOwner(REVOKED_ADMIN), d);
        if world.admin != REVOKED_ADMIN {
          end := Refused;
        }
      } else {
        assert p == Refuse;
        end := Refused;
      }
      StepDone(RevokeAdmin, old(Result()), old(fates));
    }

    method VerifyDistribution()
      modifies this
      ensures Continues(book, old(Result()), old(fates), VerifySteps(book), Result(), fates)
    {
      ghost var r0, f0, steps := Result(), fates, VerifySteps(book);
      var expected := AggregateExpectedBalancesByOwner(MINT_ALLOCATIONS, book.Resolve);
      ContinuesNothing(book, r0, f0);
      assert steps[..0] == [];
      for i := 0 to |expected|
        invariant Continues(book, r0, f0, steps[..i], Result(), fates)
      {
        ghost var r1, f1 := Result(), fates;
        Require(VerifyOwner(expected[i].owner, expected[i].expectedNano));
        ContinuesStep(book, r0, f0, steps, i, r1, f1, Result(), fates);
      }
      assert steps[..|expected|] == steps;
    }

    method FinalizeSupply()
      modifies this
      ensures Continues(book, old(Result()), old(fates), FinalizeSteps(book), Result(), fates)
    {
      ghost var r0, f0 := Result(), fates;
      VerifyDistribution();
      ghost var p, r1, f1 := VerifySteps(book), Result(), fates;
      Require(VerifyEmission);
      ContinuesAppend(book, r0, f0, p, r1, f1, [VerifyEmission], Result(), fates);
      p, r1, f1 := p + [VerifyEmission], Result(), fates;
      Require(VerifySupply);
      ContinuesAppend(book, r0, f0, p, r1, f1, [VerifySupply], Result(), fates);
      p, r1, f1 := p + [VerifySupply], Result(), fates;
      CloseMint();
      ContinuesAppend(book, r0, f0, p, r1, f1, [StopMinting], Result(), fates);
      p, r1, f1 := p + [StopMinting], Result(), fates;
      RevokeJettonAdmin();
      ContinuesAppend(book, r0, f0, p, r1, f1, [RevokeAdmin], Result(), fates);
      assert p + [RevokeAdmin] == FinalizeSteps(book);
    }

    /** The whole script does to the chain what the step list says, message by message. */
    method DeployBurnStack(finalize: bool)
      requires end == Done && sent == []
      modifies this
      ensures Result() == Run(book, Program(book, finalize), old(world), old(fates))
    {
      ghost var r0, f0 := Result(), fates;
      DeployContracts();
      ghost var p, r1, f1 := SetupSteps(), Result(), fates;
      MintAllocations();
      ContinuesAppend(book, r0, f0, p, r1, f1, MintSteps(), Result(), fates);
      p, r1, f1 := p + MintSteps(), Result(), fates;
      ConfigureFees();
      ContinuesAppend(book, r0, f0, p, r1, f1, FeeSteps(book), Result(), fates);
      p, r1, f1 := p + FeeSteps(book), Result(), fates;
      HandOver(finalize);
      ContinuesAppend(book, r0, f0, p, r1, f1, AuthoritySteps(finalize), Result(), fates);
      p, r1, f1 := p + AuthoritySteps(finalize), Result(), fates;
      if finalize {
        FinalizeSupply();
        ContinuesAppend(book, r0, f0, p, r1, f1, FinalizeSteps(book), Result(), fates);
        p, r1, f1 := p + FinalizeSteps(book), Result(), fates;
      } else {
        assert p + [] == p;
      }
      SaveDeployment(finalize);
      ContinuesAppend(book, r0, f0, p, r1, f1, [Record(finalize)], Result(), fates);
    }
  }
}
