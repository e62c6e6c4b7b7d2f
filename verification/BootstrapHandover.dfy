/**
 * The jetton timelock is handed over last: in every history of launches whose messages
 * land, ordinary and finalizing ones mixed, it finds the fee set-up complete. What a launch
 * still sends afterwards that only the timelock may send is stated exactly, for every history.
 */
module BootstrapHandover {
  import opened Common
  import opened Sums
  import opened Allocations
  import opened Chain
  import opened Script
  import opened BootstrapSafety
  import opened BootstrapConvergence

  /** Fee destinations, exclusions and wallet fee configs are what the script sets up. */
  ghost predicate FeesInPlace(b: AddressBook, w: World) {
    && w.feeDestinations == Some((b.stakingPool, b.treasury))
    && (forall h :: h in b.ExcludedOwners() ==> h in w.excluded)
    && (forall o :: o in b.FeeConfigOwners() ==> o in w.feeActive)
  }

  ghost predicate Guarded(b: AddressBook, w: World) {
    && (w.jettonTimelock == b.deployer || w.jettonTimelock == b.timelock)
    && (w.jettonTimelock == b.timelock ==> FeesInPlace(b, w))
    && (forall h :: h in w.excluded ==> h in b.ExcludedOwners())
  }

  /** The set-up that step `t` stands for is there. */
  ghost predicate Applied(b: AddressBook, t: Step, w: World) {
    match t
    case Deploy(c) => c in w.live
    case FeeDestinations => w.feeDestinations == Some((b.stakingPool, b.treasury))
    case Exclude(h) => h in w.excluded
    case Sync(o) => o in w.feeActive
    case _ => true
  }

  /** Steps that must come before `t`. */
  ghost predicate Needs(b: AddressBook, t: Step, u: Step) {
    match t
    case Exclude(_) => u == Deploy(JettonMasterC)
    case Sync(_) => u == Deploy(JettonMasterC) || u == FeeDestinations
    case HandOverTimelock => u == FeeDestinations
      || (u.Exclude? && u.holder in b.ExcludedOwners()) || (u.Sync? && u.owner in b.FeeConfigOwners())
    case _ => false
  }

  lemma FewHolders(b: AddressBook, w: World)
    requires forall h :: h in w.excluded ==> h in b.ExcludedOwners()
    ensures |w.excluded| < MAX_EXCLUDED_ADDRESSES
  {
    var all := set h | h in b.ExcludedOwners();
    SetOfSeq(b.ExcludedOwners());
    assert all == w.excluded + (all - w.excluded);
  }

  lemma StepApplies(b: AddressBook, t: Step, w: World, blind: bool)
    requires b.Valid() && Guarded(b, w)
    requires (t.Exclude? ==> t.holder in b.ExcludedOwners()) && (t.Sync? ==> t.owner in b.FeeConfigOwners())
    requires t.Sync? ==> JettonMasterC in w.live && w.feeDestinations.Some?
    requires Perform(b, t, w, Lands, blind).ok
    ensures Applied(b, t, Perform(b, t, w, Lands, blind).world)
  {
    FewHolders(b, w);
  }

  lemma StepKeepsApplied(b: AddressBook, t: Step, w: World, d: Delivery, blind: bool, u: Step)
    requires Applied(b, u, w)
    ensures Applied(b, u, Perform(b, t, w, d, blind).world)
  {
    match Probe(b, t, Seen(w, blind))
    case Send(m) => MessageKeepsApplied(b, t, m, w, d, u, Seen(w, blind));
    case Save(_) =>
    case _ =>
  }

  lemma MessageKeepsApplied(b: AddressBook, t: Step, m: Msg, w: World, d: Delivery, u: Step, seen: World)
    requires Applied(b, u, w) && Probe(b, t, seen) == Send(m)
    ensures Applied(b, u, Transmit(b, m, w, d))
  {
    assert m.SetFeeDestinations? ==> m == SetFeeDestinations(b.stakingPool, b.treasury);
  }

  lemma StepStaysGuarded(b: AddressBook, t: Step, w: World, d: Delivery, blind: bool)
    requires b.Valid() && Guarded(b, w) && (t.Exclude? ==> t.holder in b.ExcludedOwners())
    requires t == HandOverTimelock ==> FeesInPlace(b, w)
    ensures Guarded(b, Perform(b, t, w, d, blind).world)
  {
    if FeesInPlace(b, w) {
      StepKeepsFees(b, t, w, d, blind);
    }
    match Probe(b, t, Seen(w, blind))
    case Send(m) => MessageMovesTimelock(b, t, m, w, d, Seen(w, blind));
    case Save(_) =>
    case _ =>
  }

  lemma MessageMovesTimelock(b: AddressBook, t: Step, m: Msg, w: World, d: Delivery, seen: World)
    requires Probe(b, t, seen) == Send(m)
    ensures var w' := Transmit(b, m, w, d);
      && (w'.jettonTimelock == w.jettonTimelock || (t == HandOverTimelock && w'.jettonTimelock == b.timelock))
      && (w'.excluded == w.excluded || (t.Exclude? && w'.excluded == w.excluded + {t.holder}))
  {
    assert m.SetTimelock? ==> t == HandOverTimelock && m.newTimelock == b.timelock;
    assert m.AddExcluded? ==> t == Exclude(m.holder);
  }

  lemma StepKeepsFees(b: AddressBook, t: Step, w: World, d: Delivery, blind: bool)
    requires FeesInPlace(b, w)
    ensures FeesInPlace(b, Perform(b, t, w, d, blind).world)
  {
    StepKeepsApplied(b, t, w, d, blind, FeeDestinations);
    var w' := Perform(b, t, w, d, blind).world;
    forall h | h in b.ExcludedOwners() ensures h in w'.excluded {
      StepKeepsApplied(b, t, w, d, blind, Exclude(h));
    }
    forall o | o in b.FeeConfigOwners() ensures o in w'.feeActive {
      StepKeepsApplied(b, t, w, d, blind, Sync(o));
    }
  }

  lemma ArrivalsKeepApplied(b: AddressBook, w: World, w': World, behind: set<Step>)
    requires SameAuthority(w, w') && Guarded(b, w)
    requires forall u :: u in behind ==> Applied(b, u, w)
    ensures Guarded(b, w') && forall u :: u in behind ==> Applied(b, u, w')
  {
    forall u | u in behind ensures Applied(b, u, w') {
      assert Applied(b, u, w);
    }
  }

  /** Needed steps stand earlier in the list, or are behind already; fee steps name the script's owners. */
  ghost predicate InOrder(b: AddressBook, steps: seq<Step>, behind: set<Step>) {
    && (forall i, u :: 0 <= i < |steps| && Needs(b, steps[i], u) ==> u in behind || u in steps[..i])
    && (forall i :: 0 <= i < |steps| ==>
         && (steps[i].Exclude? ==> steps[i].holder in b.ExcludedOwners())
         && (steps[i].Sync? ==> steps[i].owner in b.FeeConfigOwners()))
  }

  lemma InOrderTail(b: AddressBook, steps: seq<Step>, behind: set<Step>)
    requires steps != [] && InOrder(b, steps, behind)
    ensures InOrder(b, steps[1..], behind + {steps[0]})
  {
    var rest := steps[1..];
    forall i, u | 0 <= i < |rest| && Needs(b, rest[i], u) ensures u in behind + {steps[0]} || u in rest[..i] {
      assert rest[i] == steps[i + 1];
      assert steps[..i + 1] == [steps[0]] + rest[..i];
    }
  }

  /** Every message lands; wallet reads may fail, and late mints and relays may arrive. */
  ghost predicate AllLand(fates: seq<Fate>) {
    forall i :: 0 <= i < |fates| ==> fates[i].Crash? || fates[i].delivery == Lands
  }

  lemma LandingStep(b: AddressBook, t: Step, w: World, blind: bool, behind: set<Step>)
    requires b.Valid() && Guarded(b, w)
    requires (t.Exclude? ==> t.holder in b.ExcludedOwners()) && (t.Sync? ==> t.owner in b.FeeConfigOwners())
    requires forall u :: u in behind ==> Applied(b, u, w)
    requires forall u :: Needs(b, t, u) ==> u in behind
    ensures var s := Perform(b, t, w, Lands, blind);
      && Guarded(b, s.world)
      && (s.ok ==> forall u :: u in behind + {t} ==> Applied(b, u, s.world))
  {
    var s := Perform(b, t, w, Lands, blind);
    assert Needs(b, t, Deploy(JettonMasterC)) ==> Applied(b, Deploy(JettonMasterC), w);
    assert Needs(b, t, FeeDestinations) ==> Applied(b, FeeDestinations, w);
    if t == HandOverTimelock {
      forall h | h in b.ExcludedOwners() ensures h in w.excluded {
        assert Needs(b, t, Exclude(h)) && Applied(b, Exclude(h), w);
      }
      forall o | o in b.FeeConfigOwners() ensures o in w.feeActive {
        assert Needs(b, t, Sync(o)) && Applied(b, Sync(o), w);
      }
    }
    StepStaysGuarded(b, t, w, Lands, blind);
    if s.ok {
      StepApplies(b, t, w, blind);
      forall u | u in behind ensures Applied(b, u, s.world) {
        StepKeepsApplied(b, t, w, Lands, blind, u);
      }
    }
  }

  lemma {:induction false} LandingRun(b: AddressBook, steps: seq<Step>, w: World, fates: seq<Fate>, behind: set<Step>)
    requires b.Valid() && Guarded(b, w) && AllLand(fates) && InOrder(b, steps, behind)
    requires forall u :: u in behind ==> Applied(b, u, w)
    ensures Guarded(b, Run(b, steps, w, fates).world)
    decreases |steps|
  {
    if steps == [] || fates == [] || fates[0].Crash? {
    } else {
      var f := fates[0];
      var w1 := Arrivals(b, f.arrivals, w);
      ArrivalsKeepAuthority(b, f.arrivals, w);
      ArrivalsKeepApplied(b, w, w1, behind);
      assert steps[..0] == [];
      LandingStep(b, steps[0], w1, f.blind, behind);
      RunCons(b, steps, w, fates);
      var s := Play(b, steps[0], w, f);
      if s.ok {
        InOrderTail(b, steps, behind);
        LandingRun(b, steps[1..], s.world, fates[1..], behind + {steps[0]});
      }
    }
  }

  lemma NeededIsListed(b: AddressBook, finalize: bool, t: Step, u: Step)
    requires Needs(b, t, u)
    ensures Listed(b, finalize, u) && Rank(u) < Rank(t)
  {
    SetupMembers(Deploy(JettonMasterC));
  }

  lemma RankedInOrder(b: AddressBook, finalize: bool, p: seq<Step>)
    requires Ranked(p, 0, 16) && forall u :: u in p <==> Listed(b, finalize, u)
    ensures InOrder(b, p, {})
  {
    forall i | 0 <= i < |p|
      ensures (p[i].Exclude? ==> p[i].holder in b.ExcludedOwners())
        && (p[i].Sync? ==> p[i].owner in b.FeeConfigOwners())
    {
      assert p[i] in p;
    }
    forall i, u | 0 <= i < |p| && Needs(b, p[i], u) ensures u in p[..i] {
      NeededIsListed(b, finalize, p[i], u);
      assert u in p;
      var j :| 0 <= j < |p| && p[j] == u;
      assert j < i;
      assert p[..i][j] == u;
    }
  }

  lemma ProgramInOrder(b: AddressBook, finalize: bool)
    ensures InOrder(b, Program(b, finalize), {})
  {
    ProgramIsRanked(b, finalize);
    forall u ensures u in Program(b, finalize) <==> Listed(b, finalize, u) {
      ProgramMembers(b, finalize, u);
    }
    RankedInOrder(b, finalize, Program(b, finalize));
  }

  ghost predicate LandingHistory(history: seq<Event>) {
    forall i :: 0 <= i < |history| && history[i].Launch? ==> AllLand(history[i].fates)
  }

  /** Where every message lands, a handed-over timelock stands behind a complete fee set-up, failed reads or not. */
  lemma {:induction false} HandoverComesLast(b: AddressBook, history: seq<Event>)
    requires b.Valid() && LandingHistory(history)
    ensures Guarded(b, Reached(b, history))
    decreases |history|
  {
    if history == [] {
    } else {
      var init, last := history[..|history| - 1], history[|history| - 1];
      HandoverComesLast(b, init);
      match last
      case Launch(finalize, fates) =>
        ProgramInOrder(b, finalize);
        LandingRun(b, Program(b, finalize), Reached(b, init), fates, {});
      case Arrives(a) =>
        ArriveKeepsAuthority(b, a, Reached(b, init));
    }
  }

  // ----- With lost messages -----

  /**
   * What lost messages cannot break: active fee configs need the destinations, the destinations a live master, and
   * the handover needs active fee configs.
   */
  ghost predicate Activated(b: AddressBook, w: World) {
    && (w.jettonTimelock == b.deployer || w.jettonTimelock == b.timelock)
    && (w.feeDestinations.None? || w.feeDestinations == Some((b.stakingPool, b.treasury)))
    && (w.feeDestinations.Some? ==> JettonMasterC in w.live)
    && (w.feeActive != {} ==> w.feeDestinations.Some?)
    && (w.jettonTimelock == b.timelock ==> AllActive(b, w))
  }

  ghost predicate AllActive(b: AddressBook, w: World) {
    forall o :: o in b.FeeConfigOwners() ==> o in w.feeActive
  }

  /** The required activations among the steps behind hold. */
  ghost predicate ActiveBehind(behind: set<Step>, w: World) {
    forall u :: u in behind && u.RequireActive? ==> u.owner in w.feeActive
  }

  /** Every required activation of the script stands before the handover, or is behind. */
  ghost predicate ActivationFirst(b: AddressBook, steps: seq<Step>, behind: set<Step>) {
    forall i, o :: 0 <= i < |steps| && steps[i] == HandOverTimelock && o in b.FeeConfigOwners() ==>
      RequireActive(o) in behind || RequireActive(o) in steps[..i]
  }

  lemma ActivationFirstTail(b: AddressBook, steps: seq<Step>, behind: set<Step>)
    requires steps != [] && ActivationFirst(b, steps, behind)
    ensures ActivationFirst(b, steps[1..], behind + {steps[0]})
  {
    var rest := steps[1..];
    forall i, o | 0 <= i < |rest| && rest[i] == HandOverTimelock && o in b.FeeConfigOwners()
      ensures RequireActive(o) in behind + {steps[0]} || RequireActive(o) in rest[..i]
    {
      assert rest[i] == steps[i + 1];
      assert steps[..i + 1] == [steps[0]] + rest[..i];
    }
  }

  lemma StepStaysActivated(b: AddressBook, t: Step, w: World, d: Delivery, blind: bool)
    requires b.Valid() && Activated(b, w) && (t == HandOverTimelock ==> AllActive(b, w))
    ensures var s := Perform(b, t, w, d, blind);
      && Activated(b, s.world) && w.feeActive <= s.world.feeActive
      && (s.ok && t.RequireActive? ==> t.owner in s.world.feeActive)
  {
    match Probe(b, t, Seen(w, blind))
    case Send(m) => MessageStaysActivated(b, t, m, w, d, Seen(w, blind));
    case Save(_) =>
    case _ =>
  }

  lemma MessageStaysActivated(b: AddressBook, t: Step, m: Msg, w: World, d: Delivery, seen: World)
    requires b.Valid() && Activated(b, w) && (t == HandOverTimelock ==> AllActive(b, w)) && Probe(b, t, seen) == Send(m)
    ensures Activated(b, Transmit(b, m, w, d)) && w.feeActive <= Transmit(b, m, w, d).feeActive
  {
    assert m.SetTimelock? ==> t == HandOverTimelock && m.newTimelock == b.timelock;
    assert m.SetFeeDestinations? ==> m == SetFeeDestinations(b.stakingPool, b.treasury);
  }

  lemma PlayStaysActivated(b: AddressBook, t: Step, w: World, f: Fate, behind: set<Step>)
    requires b.Valid() && Activated(b, w) && (t == HandOverTimelock ==> AllActive(b, w)) && ActiveBehind(behind, w)
    requires f.Go?
    ensures var s := Play(b, t, w, f);
      Activated(b, s.world) && (s.ok ==> ActiveBehind(behind + {t}, s.world))
  {
    ArrivalsKeepAuthority(b, f.arrivals, w);
    StepStaysActivated(b, t, Arrivals(b, f.arrivals, w), f.delivery, f.blind);
  }

  lemma {:induction false} RunStaysActivated(b: AddressBook, steps: seq<Step>, w: World, fates: seq<Fate>,
                                             behind: set<Step>)
    requires b.Valid() && Activated(b, w) && ActivationFirst(b, steps, behind) && ActiveBehind(behind, w)
    ensures Activated(b, Run(b, steps, w, fates).world)
    decreases |steps|
  {
    if steps == [] || fates == [] || fates[0].Crash? {
    } else {
      FirstMayHandOver(b, steps, w, behind);
      PlayStaysActivated(b, steps[0], w, fates[0], behind);
      RunCons(b, steps, w, fates);
      var s := Play(b, steps[0], w, fates[0]);
      if s.ok {
        ActivationFirstTail(b, steps, behind);
        RunStaysActivated(b, steps[1..], s.world, fates[1..], behind + {steps[0]});
      }
    }
  }

  lemma FirstMayHandOver(b: AddressBook, steps: seq<Step>, w: World, behind: set<Step>)
    requires steps != [] && ActivationFirst(b, steps, behind) && ActiveBehind(behind, w)
    ensures steps[0] == HandOverTimelock ==> AllActive(b, w)
  {
    assert steps[..0] == [];
  }

  lemma RankedActivatesFirst(b: AddressBook, p: seq<Step>)
    requires Ranked(p, 0, 16) && forall o :: o in b.FeeConfigOwners() ==> RequireActive(o) in p
    ensures ActivationFirst(b, p, {})
  {
    forall i, o | 0 <= i < |p| && p[i] == HandOverTimelock && o in b.FeeConfigOwners()
      ensures RequireActive(o) in p[..i]
    {
      var j := PositionIn(p, RequireActive(o));
      assert j < i;
      assert p[..i][j] == p[j];
    }
  }

  lemma ProgramActivatesFirst(b: AddressBook, finalize: bool)
    ensures ActivationFirst(b, Program(b, finalize), {})
  {
    ProgramIsRanked(b, finalize);
    forall o | o in b.FeeConfigOwners() ensures RequireActive(o) in Program(b, finalize) {
      ProgramMembers(b, finalize, RequireActive(o));
    }
    RankedActivatesFirst(b, Program(b, finalize));
  }

  /**
   * In every history, with lost messages, failed reads and late arrivals, a handed-over timelock stands behind
   * configured fee destinations and active fee configs of all owners.
   */
  lemma {:induction false} HandoverNeedsActiveFees(b: AddressBook, history: seq<Event>)
    requires b.Valid()
    ensures var w := Reached(b, history);
      && Activated(b, w)
      && (w.jettonTimelock == b.timelock ==>
            w.feeDestinations == Some((b.stakingPool, b.treasury)) && AllActive(b, w) && JettonMasterC in w.live)
    decreases |history|
  {
    if history == [] {
    } else {
      var init, last := history[..|history| - 1], history[|history| - 1];
      HandoverNeedsActiveFees(b, init);
      match last
      case Launch(finalize, fates) =>
        ProgramActivatesFirst(b, finalize);
        RunStaysActivated(b, Program(b, finalize), Reached(b, init), fates, {});
      case Arrives(a) =>
        ArriveKeepsAuthority(b, a, Reached(b, init));
    }
    assert b.airdropHolder in b.FeeConfigOwners();
  }

  // ----- After the handover -----

  /** The run comes to step `i` and performs it. */
  ghost predicate Performs(b: AddressBook, steps: seq<Step>, w: World, fates: seq<Fate>, i: nat) {
    i < |steps| && i < |fates| && fates[i].Go? && Run(b, steps[..i], w, fates).end == Done
  }

  function ResultAt(b: AddressBook, steps: seq<Step>, w: World, fates: seq<Fate>, i: nat): StepResult
    requires i < |steps| && i < |fates| && fates[i].Go?
  {
    Play(b, steps[i], Run(b, steps[..i], w, fates).world, fates[i])
  }

  lemma PerformsBefore(b: AddressBook, steps: seq<Step>, w: World, fates: seq<Fate>, i: nat)
    requires i < |steps| - 1
    ensures Performs(b, steps, w, fates, i) <==> Performs(b, steps[..|steps| - 1], w, fates, i)
    ensures Performs(b, steps, w, fates, i) ==>
      ResultAt(b, steps, w, fates, i) == ResultAt(b, steps[..|steps| - 1], w, fates, i)
  {
    assert steps[..|steps| - 1][..i] == steps[..i];
  }

  /** What the last step adds to the messages sent. */
  lemma LastStepSends(b: AddressBook, steps: seq<Step>, w: World, fates: seq<Fate>)
    requires steps != []
    ensures var n := |steps| - 1;
      Run(b, steps, w, fates).sent == Run(b, steps[..n], w, fates).sent
        + if Performs(b, steps, w, fates, n) then ResultAt(b, steps, w, fates, n).sent else []
  {
    var n := |steps| - 1;
    var init, last := steps[..n], [steps[n]];
    assert steps == init + last;
    RunAppend(b, init, last, w, fates);
    var r := Run(b, init, w, fates);
    if r.end == Done {
      var left := fates[n..];
      assert left != [] ==> left[0] == fates[n];
      if left != [] && left[0].Go? {
        RunCons(b, last, r.world, left);
        assert Play(b, steps[n], r.world, fates[n]).sent + [] == Play(b, steps[n], r.world, fates[n]).sent;
      }
    }
  }

  ghost predicate SentAt(b: AddressBook, steps: seq<Step>, w: World, fates: seq<Fate>, m: Msg, i: nat) {
    Performs(b, steps, w, fates, i) && m in ResultAt(b, steps, w, fates, i).sent
  }

  /** The messages of a run are those of the steps it comes to. */
  lemma {:induction false} SentByStep(b: AddressBook, steps: seq<Step>, w: World, fates: seq<Fate>, m: Msg)
    returns (i: nat)
    requires m in Run(b, steps, w, fates).sent
    ensures SentAt(b, steps, w, fates, m, i)
    decreases |steps|
  {
    var n := |steps| - 1;
    LastStepSends(b, steps, w, fates);
    if m in Run(b, steps[..n], w, fates).sent {
      i := SentByStep(b, steps[..n], w, fates, m);
      PerformsBefore(b, steps, w, fates, i);
    } else {
      i := n;
    }
  }

  lemma {:induction false} StepIsSent(b: AddressBook, steps: seq<Step>, w: World, fates: seq<Fate>, m: Msg, i: nat)
    requires SentAt(b, steps, w, fates, m, i)
    ensures m in Run(b, steps, w, fates).sent
    decreases |steps|
  {
    var n := |steps| - 1;
    LastStepSends(b, steps, w, fates);
    if i < n {
      PerformsBefore(b, steps, w, fates, i);
      StepIsSent(b, steps[..n], w, fates, m, i);
    }
  }

  /** After the handover: fees are in place but for exclusions, of which exactly `excluded` are there. */
  ghost predicate HandedOver(b: AddressBook, w: World, excluded: set<Address>) {
    && w.jettonTimelock == b.timelock && w.feeDestinations == Some((b.stakingPool, b.treasury)) && AllActive(b, w)
    && JettonMasterC in w.live && w.excluded == excluded
  }

  /** The timelock-gated message that step `t` still sends: a missing exclusion, or a sync whose read failed. */
  predicate StillSends(t: Step, m: Msg, excluded: set<Address>, blind: bool) {
    || (t.Exclude? && m == AddExcluded(t.holder) && t.holder !in excluded)
    || (t.Sync? && m == SyncFeeConfigToWallet(t.owner) && blind)
  }

  lemma SentAfterHandover(b: AddressBook, t: Step, seen: World, excluded: set<Address>, blind: bool, m: Msg)
    requires JettonMasterC in seen.live && seen.excluded == excluded && TimelockGated(m)
    requires seen.jettonTimelock == b.timelock && seen.feeDestinations == Some((b.stakingPool, b.treasury))
    requires t.Sync? ==> (t.owner in seen.feeActive <==> !blind)
    ensures Probe(b, t, seen) == Send(m) <==> StillSends(t, m, excluded, blind)
  {
    match t
    case Exclude(h) =>
    case Sync(o) =>
    case FeeDestinations =>
    case HandOverTimelock =>
    case MintTo(k) =>
    case _ =>
  }

  lemma MessageAfterHandover(b: AddressBook, m: Msg, w: World, d: Delivery, excluded: set<Address>)
    requires b.Valid() && HandedOver(b, w, excluded)
    ensures HandedOver(b, Transmit(b, m, w, d), excluded)
  {
  }

  lemma StepAfterHandover(b: AddressBook, t: Step, w: World, d: Delivery, blind: bool, excluded: set<Address>, m: Msg)
    requires b.Valid() && HandedOver(b, w, excluded) && (t.Sync? ==> t.owner in b.FeeConfigOwners()) && TimelockGated(m)
    ensures var s := Perform(b, t, w, d, blind);
      HandedOver(b, s.world, excluded) && (m in s.sent <==> StillSends(t, m, excluded, blind))
  {
    SentAfterHandover(b, t, Seen(w, blind), excluded, blind, m);
    match Probe(b, t, Seen(w, blind))
    case Send(sent) => MessageAfterHandover(b, sent, w, d, excluded);
    case Save(_) =>
    case _ =>
  }

  lemma {:induction false} RunAfterHandover(b: AddressBook, steps: seq<Step>, w: World, fates: seq<Fate>,
                                            excluded: set<Address>)
    requires b.Valid() && HandedOver(b, w, excluded)
    requires forall t :: t in steps && t.Sync? ==> t.owner in b.FeeConfigOwners()
    ensures HandedOver(b, Run(b, steps, w, fates).world, excluded)
    decreases |steps|
  {
    if steps == [] || fates == [] || fates[0].Crash? {
    } else {
      var f := fates[0];
      ArrivalsKeepAuthority(b, f.arrivals, w);
      StepAfterHandover(b, steps[0], Arrivals(b, f.arrivals, w), f.delivery, f.blind, excluded,
        SetTimelock(b.timelock));
      RunCons(b, steps, w, fates);
      var s := Play(b, steps[0], w, f);
      if s.ok {
        RunAfterHandover(b, steps[1..], s.world, fates[1..], excluded);
      }
    }
  }

  lemma SentAfterHandoverIff(b: AddressBook, steps: seq<Step>, w: World, fates: seq<Fate>, i: nat, m: Msg)
    requires b.Valid() && HandedOver(b, w, w.excluded) && TimelockGated(m) && Performs(b, steps, w, fates, i)
    requires forall t :: t in steps && t.Sync? ==> t.owner in b.FeeConfigOwners()
    ensures m in ResultAt(b, steps, w, fates, i).sent <==> StillSends(steps[i], m, w.excluded, fates[i].blind)
  {
    var f, before := fates[i], Run(b, steps[..i], w, fates).world;
    RunAfterHandover(b, steps[..i], w, fates, w.excluded);
    ArrivalsKeepAuthority(b, f.arrivals, before);
    StepAfterHandover(b, steps[i], Arrivals(b, f.arrivals, before), f.delivery, f.blind, w.excluded, m);
  }

  /** The launch comes to step `i`, which still sends the gated message `m`. */
  ghost predicate Attempts(b: AddressBook, steps: seq<Step>, w: World, fates: seq<Fate>, m: Msg, i: nat) {
    Performs(b, steps, w, fates, i) && StillSends(steps[i], m, w.excluded, fates[i].blind)
  }

  lemma GatedSentIff(b: AddressBook, steps: seq<Step>, w: World, fates: seq<Fate>, m: Msg)
    requires b.Valid() && HandedOver(b, w, w.excluded) && TimelockGated(m)
    requires forall t :: t in steps && t.Sync? ==> t.owner in b.FeeConfigOwners()
    ensures m in Run(b, steps, w, fates).sent <==> exists i :: Attempts(b, steps, w, fates, m, i)
  {
    if m in Run(b, steps, w, fates).sent {
      var i := SentByStep(b, steps, w, fates, m);
      SentAfterHandoverIff(b, steps, w, fates, i, m);
      assert Attempts(b, steps, w, fates, m, i);
    } else if i: nat :| Attempts(b, steps, w, fates, m, i) {
      SentAfterHandoverIff(b, steps, w, fates, i, m);
      StepIsSent(b, steps, w, fates, m, i);
    }
  }

  /**
   * After a handover reached by any history, the timelock-gated messages of a launch are exactly those of the steps it
   * comes to: an exclusion that is missing, and a fee-config sync whose wallet read failed. All of them bounce.
   */
  lemma GatedMessageIff(b: AddressBook, history: seq<Event>, finalize: bool, fates: seq<Fate>, m: Msg)
    requires b.Valid() && Reached(b, history).jettonTimelock == b.timelock && TimelockGated(m)
    ensures var w, p := Reached(b, history), Program(b, finalize);
      var r := Run(b, p, w, fates);
      && (m in r.sent <==> exists i :: Attempts(b, p, w, fates, m, i))
      && HandedOver(b, r.world, w.excluded)
  {
    var w, p := Reached(b, history), Program(b, finalize);
    HandoverNeedsActiveFees(b, history);
    forall t | t in p && t.Sync? ensures t.owner in b.FeeConfigOwners() { ProgramMembers(b, finalize, t); }
    GatedSentIff(b, p, w, fates, m);
    RunAfterHandover(b, p, w, fates, w.excluded);
  }

  /** The launch comes to step `i`, a sync whose wallet read fails. */
  ghost predicate UnreadSync(b: AddressBook, steps: seq<Step>, w: World, fates: seq<Fate>, m: Msg, i: nat) {
    Performs(b, steps, w, fates, i) && steps[i].Sync? && m == SyncFeeConfigToWallet(steps[i].owner) && fates[i].blind
  }

  lemma AttemptIsUnreadSync(b: AddressBook, finalize: bool, w: World, fates: seq<Fate>, m: Msg, i: nat)
    requires FeesInPlace(b, w)
    ensures Attempts(b, Program(b, finalize), w, fates, m, i) <==> UnreadSync(b, Program(b, finalize), w, fates, m, i)
  {
    var p := Program(b, finalize);
    if Performs(b, p, w, fates, i) {
      assert p[i] in p;
      ProgramMembers(b, finalize, p[i]);
    }
  }

  /**
   * When all messages before the handover landed, a launch after it sends a gated message exactly when it comes to a
   * sync whose wallet read fails, and then only that sync.
   */
  lemma GatedSyncIffUnread(b: AddressBook, history: seq<Event>, finalize: bool, fates: seq<Fate>, m: Msg)
    requires b.Valid() && LandingHistory(history) && Reached(b, history).jettonTimelock == b.timelock
    requires TimelockGated(m)
    ensures var w, p := Reached(b, history), Program(b, finalize);
      m in Run(b, p, w, fates).sent <==> exists i :: UnreadSync(b, p, w, fates, m, i)
  {
    var w, p := Reached(b, history), Program(b, finalize);
    HandoverComesLast(b, history);
    GatedMessageIff(b, history, finalize, fates, m);
    if i: nat :| Attempts(b, p, w, fates, m, i) {
      AttemptIsUnreadSync(b, finalize, w, fates, m, i);
    } else if i: nat :| UnreadSync(b, p, w, fates, m, i) {
      AttemptIsUnreadSync(b, finalize, w, fates, m, i);
    }
  }
}
