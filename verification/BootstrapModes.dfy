/**
 * Ordinary and finalizing launches on one chain: when a finalizing launch still completes
 * after ordinary ones, and what an ordinary launch does to a finalized chain.
 */
module BootstrapModes {
  import opened Common
  import opened Sums
  import opened Allocations
  import opened Chain
  import opened Script
  import opened BootstrapSafety
  import opened BootstrapConvergence
  import opened BootstrapMishaps

  // ----- The part of the step list that both modes share -----

  function Head(b: AddressBook): seq<Step> {
    SetupSteps() + MintSteps() + FeeSteps(b)
  }

  function Tail(b: AddressBook, finalize: bool): seq<Step> {
    if finalize then [HandOverTimelock] + Checks(b) + [StopMinting, RevokeAdmin, Record(true)]
    else [HandOverAdmin, HandOverTimelock, Record(false)]
  }

  lemma ProgramIsHeadAndTail(b: AddressBook, finalize: bool)
    ensures Program(b, finalize) == Head(b) + Tail(b, finalize)
  {
    if finalize {
      ProgramSplit(b);
      assert AuthoritySteps(true) == [HandOverTimelock];
      Regroup(Head(b), [HandOverTimelock], Checks(b), [StopMinting, RevokeAdmin, Record(true)]);
    } else {
      assert AuthoritySteps(false) == [HandOverAdmin, HandOverTimelock];
      Regroup(Head(b), [HandOverAdmin, HandOverTimelock], [], [Record(false)]);
      assert Head(b) + [HandOverAdmin, HandOverTimelock] + [] + [Record(false)]
        == Head(b) + [HandOverAdmin, HandOverTimelock] + ([] + [Record(false)]);
    }
  }

  lemma Regroup(head: seq<Step>, auth: seq<Step>, checks: seq<Step>, last: seq<Step>)
    ensures head + auth + (checks + last) == head + (auth + checks + last)
  {
  }

  /** The first `n` steps of the shared part are applied, and no others. */
  ghost function HeadWorld(b: AddressBook, n: nat): World
    requires b.DistinctReceivers() && n <= |Head(b)|
  {
    WorldAfter(b, Head(b)[..n], {})
  }

  ghost function SetUp(b: AddressBook): World
    requires b.DistinctReceivers()
  {
    HeadWorld(b, |Head(b)|)
  }

  lemma HeadIsSteady(b: AddressBook) returns (ws: seq<World>)
    requires b.DistinctReceivers() && b.Valid()
    ensures |ws| == |Head(b)| + 1 && ws[0] == Untouched(b)
    ensures forall n: nat :: n <= |Head(b)| ==> ws[n] == HeadWorld(b, n)
    ensures SteadyFrom(b, Head(b), ws, 0)
  {
    var p, h := Program(b, false), |Head(b)|;
    ProgramIsHeadAndTail(b, false);
    ProgramIsRanked(b, false);
    forall u ensures u in p <==> Listed(b, false, u) { ProgramMembers(b, false, u); }
    RankedAllStep(b, false, p);
    UntouchedIsEmpty(b, p);
    var all := Worlds(b, p);
    ws := all[..h + 1];
    assert p[..h] == Head(b);
    forall n: nat | n <= h ensures ws[n] == HeadWorld(b, n) {
      assert p[..n] == Head(b)[..n];
      WorldAfterPrefix(b, p, n);
    }
    AllStepOfPrefix(b, p, all, h);
    AllStepIsSteady(b, Head(b), ws, 0);
  }

  lemma AllStepOfPrefix(b: AddressBook, p: seq<Step>, ws: seq<World>, h: nat)
    requires |ws| == |p| + 1 && h <= |p| && AllStep(b, p, ws)
    ensures AllStep(b, p[..h], ws[..h + 1])
  {
    var q, vs := p[..h], ws[..h + 1];
    forall i, n | 0 <= i < h && i <= n <= h ensures StepsTo(b, q[i], vs[n], vs[Max(n, i + 1)], i < n) {
      assert StepsTo(b, p[i], ws[n], ws[Max(n, i + 1)], i < n);
    }
  }

  ghost predicate Shared(t: Step) {
    !t.HandOverAdmin? && !t.HandOverTimelock? && !t.StopMinting? && !t.RevokeAdmin? && !t.Record? && !IsCheck(t)
  }

  lemma HeadIsShared(b: AddressBook, t: Step)
    requires t in Head(b)
    ensures Shared(t)
  {
    SetupMembers(t);
    MintMembers(t);
    FeeMembers(b, t);
  }

  // ----- A chain that is set up, with any authority -----

  /** Set up; admin, timelock, mint and record are as some launches may have left them. */
  ghost predicate Settled(b: AddressBook, w: World)
    requires b.DistinctReceivers()
  {
    Around(b, SetUp(b), w)
  }

  ghost predicate Around(b: AddressBook, v: World, w: World) {
    && w == v.(admin := w.admin, jettonTimelock := w.jettonTimelock, mintable := w.mintable, record := w.record)
    && Standing(b, w)
  }

  ghost predicate Standing(b: AddressBook, w: World) {
    && (w.admin == b.deployer || w.admin == b.timelock || w.admin == REVOKED_ADMIN)
    && (w.jettonTimelock == b.deployer || w.jettonTimelock == b.timelock)
    && (w.admin == REVOKED_ADMIN ==> !w.mintable && w.jettonTimelock == b.timelock)
  }

  /** The shared steps do not look at what `w` may have of its own. */
  lemma SharedProbe(b: AddressBook, t: Step, w: World, w': World)
    requires w == w'.(admin := w.admin, jettonTimelock := w.jettonTimelock, mintable := w.mintable, record := w.record)
    requires Shared(t) || IsCheck(t)
    ensures Probe(b, t, w) == Probe(b, t, w')
  {
  }

  lemma {:induction false} SteadyAtTheEnd(b: AddressBook, p: seq<Step>, ws: seq<World>, i: nat, j: nat)
    requires |ws| == |p| + 1 && i <= j < |p| && SteadyFrom(b, p, ws, i)
    ensures StepsTo(b, p[j], ws[|p|], ws[|p|], true)
    decreases j - i
  {
    if i < j {
      assert SteadyFrom(b, p, ws, i + 1);
      SteadyAtTheEnd(b, p, ws, i + 1, j);
    } else {
      var n := |p|;
      assert Max(n, i + 1) == n;
      assert StepsTo(b, p[i], ws[n], ws[Max(n, i + 1)], i < n);
    }
  }

  lemma HeadSkips(b: AddressBook, w: World, t: Step)
    requires b.DistinctReceivers() && b.Valid() && Settled(b, w) && t in Head(b)
    ensures Probe(b, t, w) == Skip
  {
    var ws := HeadIsSteady(b);
    var j := PositionIn(Head(b), t);
    SteadyAtTheEnd(b, Head(b), ws, 0, j);
    HeadIsShared(b, t);
    SharedProbe(b, t, w, SetUp(b));
  }

  lemma HeadMembers(b: AddressBook, t: Step)
    ensures t in Head(b) <==> t in SetupSteps() || t in MintSteps() || t in FeeSteps(b)
  {
  }

  /** What the shared part has applied when it is done. */
  lemma HeadDone(b: AddressBook) returns (done: set<Step>)
    ensures done == DoneBy(Head(b), |Head(b)|)
    ensures b.DistinctReceivers() ==> SetUp(b) == WorldOf(b, done)
    ensures forall t :: t in done ==> Shared(t)
    ensures Deploy(JettonMasterC) in done && Deploy(StakingMasterC) in done
    ensures forall k: nat :: k < |MINT_ALLOCATIONS| ==> MintTo(k) in done
  {
    done := DoneBy(Head(b), |Head(b)|);
    if b.DistinctReceivers() { WorldAfterPrefix(b, Head(b), |Head(b)|); }
    assert Head(b)[..|Head(b)|] == Head(b);
    forall t | t in done ensures Shared(t) { HeadIsShared(b, t); }
    forall k: nat | k < |MINT_ALLOCATIONS| ensures MintTo(k) in done {
      MintMembers(MintTo(k));
      HeadMembers(b, MintTo(k));
    }
    var deploys := [Deploy(JettonMasterC), Deploy(StakingMasterC)];
    forall i | 0 <= i < |deploys| ensures deploys[i] in done {
      SetupMembers(deploys[i]);
      HeadMembers(b, deploys[i]);
    }
    assert deploys[0] in done && deploys[1] in done;
  }

  lemma MintedChecksPass(b: AddressBook, done: set<Step>, t: Step)
    requires b.DistinctReceivers() && IsCheck(t) && (t.VerifyOwner? ==> t in VerifySteps(b))
    requires Deploy(JettonMasterC) in done && Deploy(StakingMasterC) in done
    requires forall k: nat :: k < |MINT_ALLOCATIONS| ==> MintTo(k) in done
    ensures Probe(b, t, WorldOf(b, done)) == Skip
  {
    if t.VerifyOwner? {
      OwnerCheckPasses(b, t, done);
    } else if t.VerifySupply? {
      MintedSumIsCapped(MintedIn(done));
    } else {
      assert MintTo(EMISSION) in done;
    }
  }

  lemma CheckKinds(b: AddressBook, t: Step)
    requires t in Checks(b)
    ensures IsCheck(t) && (t.VerifyOwner? ==> t in VerifySteps(b))
  {
    FinalizeMembers(b, t);
  }

  lemma ChecksSkip(b: AddressBook, w: World, t: Step)
    requires b.DistinctReceivers() && Settled(b, w) && t in Checks(b)
    ensures Probe(b, t, w) == Skip && IsCheck(t)
  {
    var done := HeadDone(b);
    CheckKinds(b, t);
    MintedChecksPass(b, done, t);
    SharedProbe(b, t, w, SetUp(b));
  }

  /** A run of steps that are skipped, or that change nothing. */
  lemma {:induction false} RunIdles(b: AddressBook, p: seq<Step>, w: World, n: nat, silent: bool)
    requires forall t :: t in p ==> Idles(b, t, w, silent)
    ensures var r := Run(b, p, w, Smooth(n));
      r.world == w && r.end == (if n >= |p| then Done else Crashed) && (silent ==> r.sent == [])
    decreases |p|
  {
    if p == [] || n == 0 {
    } else {
      assert Smooth(n)[0] == Go([], Lands, false) && Smooth(n)[1..] == Smooth(n - 1);
      RunCons(b, p, w, Smooth(n));
      assert p[0] in p;
      RunIdles(b, p[1..], w, n - 1, silent);
    }
  }

  ghost predicate Idles(b: AddressBook, t: Step, w: World, silent: bool) {
    var s := Perform(b, t, w, Lands, false);
    s.ok && s.world == w && (silent ==> s.sent == [])
  }

  // ----- Launches on it -----

  /** Somewhere in the shared part, or set up. */
  ghost predicate UnderWay(b: AddressBook, w: World)
    requires b.DistinctReceivers()
  {
    Settled(b, w) || exists n: nat :: n <= |Head(b)| && w == HeadWorld(b, n)
  }

  lemma SharedLeavesAuthority(b: AddressBook, done: set<Step>)
    requires b.DistinctReceivers() && forall t :: t in done ==> Shared(t)
    ensures var w := WorldOf(b, done); w.admin == b.deployer && w.jettonTimelock == b.deployer && w.mintable
  {
  }

  lemma SetUpIsSettled(b: AddressBook)
    requires b.DistinctReceivers() && b.Valid()
    ensures Settled(b, SetUp(b)) && SetUp(b).admin == b.deployer
    ensures {JettonMasterC, StakingMasterC} <= SetUp(b).live
  {
    var done := HeadDone(b);
    SharedLeavesAuthority(b, done);
  }

  /** The chain on which the mode-specific steps of a launch start. */
  ghost function Entry(b: AddressBook, w: World): World
    requires b.DistinctReceivers()
  {
    if Settled(b, w) then w else SetUp(b)
  }

  lemma HeadRunUnderWay(b: AddressBook, i: nat, n: nat)
    requires b.DistinctReceivers() && b.Valid() && i <= |Head(b)|
    ensures var r := Run(b, Head(b), HeadWorld(b, i), Smooth(n));
      && UnderWay(b, r.world)
      && r.end == (if n >= |Head(b)| then Done else Crashed)
      && (n >= |Head(b)| ==> r.world == SetUp(b))
  {
    var ws := HeadIsSteady(b);
    SmoothLaunch(b, Head(b), ws, i, n);
  }

  lemma HeadRunSettled(b: AddressBook, w: World, n: nat)
    requires b.DistinctReceivers() && b.Valid() && Settled(b, w)
    ensures Run(b, Head(b), w, Smooth(n)) == RunResult(w, if n >= |Head(b)| then Done else Crashed, [])
  {
    forall t | t in Head(b) ensures Idles(b, t, w, true) { HeadSkips(b, w, t); }
    RunIdles(b, Head(b), w, n, true);
  }

  lemma HeadRun(b: AddressBook, w: World, n: nat)
    requires b.DistinctReceivers() && b.Valid() && UnderWay(b, w)
    ensures var r := Run(b, Head(b), w, Smooth(n));
      && UnderWay(b, r.world)
      && r.end == (if n >= |Head(b)| then Done else Crashed)
      && (n >= |Head(b)| ==> r.world == Entry(b, w))
      && (Settled(b, w) ==> r.sent == [] && r.world == w)
  {
    if Settled(b, w) {
      HeadRunSettled(b, w, n);
    } else {
      var i: nat :| i <= |Head(b)| && w == HeadWorld(b, i);
      HeadRunUnderWay(b, i, n);
    }
  }

  /** A launch that crashes in the shared part. */
  lemma LaunchStops(b: AddressBook, finalize: bool, w: World, n: nat)
    requires b.DistinctReceivers() && b.Valid() && UnderWay(b, w) && n < |Head(b)|
    ensures Run(b, Program(b, finalize), w, Smooth(n)) == Run(b, Head(b), w, Smooth(n))
    ensures UnderWay(b, Run(b, Head(b), w, Smooth(n)).world)
    ensures Settled(b, w) ==> Run(b, Head(b), w, Smooth(n)).world == w && Run(b, Head(b), w, Smooth(n)).sent == []
  {
    ProgramIsHeadAndTail(b, finalize);
    HeadRun(b, w, n);
    RunAppend(b, Head(b), Tail(b, finalize), w, Smooth(n));
  }

  lemma RunContinues(b: AddressBook, p: seq<Step>, q: seq<Step>, w: World, n: nat, v: World)
    requires n >= |p| && Run(b, p, w, Smooth(n)).end == Done && Run(b, p, w, Smooth(n)).world == v
    ensures Run(b, p + q, w, Smooth(n)) == Prepend(Run(b, p, w, Smooth(n)).sent, Run(b, q, v, Smooth(n - |p|)))
  {
    RunAppend(b, p, q, w, Smooth(n));
    assert Smooth(n)[|p|..] == Smooth(n - |p|);
  }

  /** One that gets through it performs its own steps from there. */
  lemma LaunchGoesOn(b: AddressBook, finalize: bool, w: World, n: nat)
    requires b.DistinctReceivers() && b.Valid() && UnderWay(b, w) && n >= |Head(b)|
    ensures var own := Run(b, Tail(b, finalize), Entry(b, w), Smooth(n - |Head(b)|));
      && Run(b, Program(b, finalize), w, Smooth(n)) == Prepend(Run(b, Head(b), w, Smooth(n)).sent, own)
      && (Settled(b, w) ==> Run(b, Program(b, finalize), w, Smooth(n)).sent == own.sent)
  {
    ProgramIsHeadAndTail(b, finalize);
    HeadRun(b, w, n);
    RunContinues(b, Head(b), Tail(b, finalize), w, n, Entry(b, w));
  }

  ghost predicate Own(t: Step) {
    t.HandOverAdmin? || t.HandOverTimelock? || t.StopMinting? || t.RevokeAdmin? || t.Record? || IsCheck(t)
  }

  lemma OwnStepMoves(b: AddressBook, t: Step, w: World)
    requires b.Valid() && Standing(b, w) && JettonMasterC in w.live && Own(t)
    requires t == RevokeAdmin ==> !w.mintable && w.jettonTimelock == b.timelock
    ensures var s := Perform(b, t, w, Lands, false);
      && s.world == w.(admin := s.world.admin, jettonTimelock := s.world.jettonTimelock, mintable := s.world.mintable,
                       record := s.world.record)
      && Standing(b, s.world)
      && (w.jettonTimelock == b.timelock || t == HandOverTimelock ==> s.world.jettonTimelock == b.timelock)
      && (t == StopMinting && s.ok ==> !s.world.mintable)
  {
    match t
    case HandOverAdmin =>
    case HandOverTimelock =>
    case StopMinting =>
    case RevokeAdmin =>
    case _ =>
  }

  lemma OwnStepSettles(b: AddressBook, t: Step, v: World, w: World)
    requires b.Valid() && Around(b, v, w) && JettonMasterC in v.live && Own(t)
    requires t == RevokeAdmin ==> !w.mintable && w.jettonTimelock == b.timelock
    ensures var s := Perform(b, t, w, Lands, false);
      && Around(b, v, s.world)
      && (w.jettonTimelock == b.timelock || t == HandOverTimelock ==> s.world.jettonTimelock == b.timelock)
      && (t == StopMinting && s.ok ==> !s.world.mintable)
  {
    OwnStepMoves(b, t, w);
  }

  /** Revoking the admin follows closing the mint, and both follow the handover of the timelock. */
  ghost predicate Ordered(b: AddressBook, steps: seq<Step>, w: World) {
    && (forall t :: t in steps ==> Own(t))
    && (forall i :: 0 < i < |steps| && steps[i] == RevokeAdmin ==> steps[i - 1] == StopMinting)
    && (steps != [] && steps[0] == RevokeAdmin ==> !w.mintable)
    && (RevokeAdmin in steps ==> w.jettonTimelock == b.timelock || steps[0] == HandOverTimelock)
  }

  lemma {:induction false} OwnStepsSettle(b: AddressBook, steps: seq<Step>, v: World, w: World, n: nat)
    requires b.Valid() && Around(b, v, w) && JettonMasterC in v.live && Ordered(b, steps, w)
    ensures Around(b, v, Run(b, steps, w, Smooth(n)).world)
    decreases |steps|
  {
    if steps == [] || n == 0 {
    } else {
      RunFirst(b, steps, w, n);
      assert steps[0] in steps;
      OwnStepSettles(b, steps[0], v, w);
      var s := Perform(b, steps[0], w, Lands, false);
      if s.ok {
        OrderedTail(b, steps, w, s.world);
        OwnStepsSettle(b, steps[1..], v, s.world, n - 1);
      }
    }
  }

  lemma OrderedTail(b: AddressBook, steps: seq<Step>, w: World, w': World)
    requires steps != [] && Ordered(b, steps, w)
    requires w.jettonTimelock == b.timelock || steps[0] == HandOverTimelock ==> w'.jettonTimelock == b.timelock
    requires steps[0] == StopMinting ==> !w'.mintable
    ensures Ordered(b, steps[1..], w')
  {
    assert forall i :: 0 <= i < |steps[1..]| ==> steps[1..][i] == steps[i + 1];
  }

  lemma RevokeIsOrdered(b: AddressBook, checks: seq<Step>, w: World)
    requires forall t :: t in checks ==> IsCheck(t)
    ensures Ordered(b, [HandOverTimelock] + checks + [StopMinting, RevokeAdmin, Record(true)], w)
  {
    var p := [HandOverTimelock] + checks;
    assert forall t :: t in p ==> t != RevokeAdmin && Own(t);
    assert forall i :: 0 <= i < |p| ==> p[i] in p;
  }

  lemma TailIsOrdered(b: AddressBook, finalize: bool, w: World)
    ensures Ordered(b, Tail(b, finalize), w)
  {
    if finalize {
      forall t | t in Checks(b) ensures IsCheck(t) { CheckKinds(b, t); }
      RevokeIsOrdered(b, Checks(b), w);
    }
  }

  // ----- Main results -----

  /** What a completed launch leaves of a chain that is set up. */
  function Finished(b: AddressBook, finalize: bool, w: World): World {
    if finalize then
      w.(admin := REVOKED_ADMIN, jettonTimelock := b.timelock, mintable := false, record := Some(true))
    else
      w.(admin := if w.admin == b.deployer then b.timelock else w.admin, jettonTimelock := b.timelock,
        record := Some(false))
  }

  lemma ThreeSteps(b: AddressBook, t: Step, u: Step, v: Step, w: World, n: nat)
    requires n >= 3
    ensures var s := Perform(b, t, w, Lands, false);
      var s1 := Perform(b, u, s.world, Lands, false);
      var s2 := Perform(b, v, s1.world, Lands, false);
      var r := Run(b, [t, u, v], w, Smooth(n));
      && (r.end == Done <==> s.ok && s1.ok && s2.ok)
      && (r.end == Done ==> r.world == s2.world && r.sent == s.sent + s1.sent + s2.sent)
  {
    var p := [t, u, v];
    assert p[1..] == [u, v] && [u, v][1..] == [v] && [v][1..] == [];
    var s := Perform(b, t, w, Lands, false);
    var s1 := Perform(b, u, s.world, Lands, false);
    RunFirst(b, p, w, n);
    RunFirst(b, [u, v], s.world, n - 1);
    RunFirst(b, [v], s1.world, n - 2);
  }

  lemma AdminStep(b: AddressBook, w: World)
    requires b.Valid() && JettonMasterC in w.live
    ensures Perform(b, HandOverAdmin, w, Lands, false) ==
      StepResult(w.(admin := if w.admin == b.deployer then b.timelock else w.admin), true,
        if w.admin == b.timelock then [] else [ChangeOwner(b.timelock)])
  {
  }

  lemma TimelockStep(b: AddressBook, w: World)
    requires b.Valid() && Standing(b, w) && JettonMasterC in w.live
    ensures Perform(b, HandOverTimelock, w, Lands, false) ==
      StepResult(w.(jettonTimelock := b.timelock), true,
        if w.jettonTimelock == b.timelock then [] else [SetTimelock(b.timelock)])
  {
  }

  lemma OrdinaryTail(b: AddressBook, w: World, n: nat)
    requires b.Valid() && Standing(b, w) && JettonMasterC in w.live && n >= 3
    ensures Run(b, Tail(b, false), w, Smooth(n)) == RunResult(Finished(b, false, w), Done,
      (if w.admin == b.timelock then [] else [ChangeOwner(b.timelock)])
      + (if w.jettonTimelock == b.timelock then [] else [SetTimelock(b.timelock)]))
  {
    ThreeSteps(b, HandOverAdmin, HandOverTimelock, Record(false), w, n);
    AdminStep(b, w);
    TimelockStep(b, Perform(b, HandOverAdmin, w, Lands, false).world);
  }

  lemma StopStep(b: AddressBook, w: World)
    requires JettonMasterC in w.live
    ensures var s := Perform(b, StopMinting, w, Lands, false);
      if w.mintable && w.admin != b.deployer then !s.ok else s.ok && s.world == w.(mintable := false)
  {
  }

  lemma RevokeStep(b: AddressBook, w: World)
    requires b.Valid() && JettonMasterC in w.live
    ensures var s := Perform(b, RevokeAdmin, w, Lands, false);
      if w.admin != REVOKED_ADMIN && w.admin != b.deployer then !s.ok else s.ok && s.world == w.(admin := REVOKED_ADMIN)
  {
  }

  lemma RevokeAfterChecks(b: AddressBook, w: World, n: nat)
    requires b.Valid() && Standing(b, w) && JettonMasterC in w.live && w.jettonTimelock == b.timelock && n >= 3
    ensures var r := Run(b, [StopMinting, RevokeAdmin, Record(true)], w, Smooth(n));
      && (r.end == Done <==> w.admin != b.timelock)
      && (r.end == Done ==> r.world == Finished(b, true, w))
  {
    ThreeSteps(b, StopMinting, RevokeAdmin, Record(true), w, n);
    StopStep(b, w);
    if w.admin != b.timelock {
      RevokeStep(b, w.(mintable := false));
    } else if !w.mintable {
      RevokeStep(b, w);
    }
  }

  /**
   * The run completes exactly when the admin is not the timelock, and then nothing can be minted or handed on any
   * more.
   */
  ghost predicate Finalizes(b: AddressBook, p: seq<Step>, w: World, n: nat) {
    var r := Run(b, p, w, Smooth(n));
    && (r.end == Done <==> w.admin != b.timelock)
    && (r.end == Done ==> r.world == Finished(b, true, w))
  }

  /** A run of these checks passes and changes nothing. */
  ghost predicate Passes(b: AddressBook, checks: seq<Step>, w: World, n: nat) {
    var r := Run(b, checks, w, Smooth(n));
    r.end == Done && r.world == w
  }

  lemma ChecksThenRevoke(b: AddressBook, checks: seq<Step>, w: World, n: nat)
    requires b.Valid() && Standing(b, w) && JettonMasterC in w.live && w.jettonTimelock == b.timelock
    requires n >= |checks| + 3 && Passes(b, checks, w, n)
    ensures Finalizes(b, checks + [StopMinting, RevokeAdmin, Record(true)], w, n)
  {
    RunContinues(b, checks, [StopMinting, RevokeAdmin, Record(true)], w, n, w);
    RevokeAfterChecks(b, w, n - |checks|);
  }

  lemma TimelockFirst(b: AddressBook, p: seq<Step>, rest: seq<Step>, w: World, w1: World, n: nat)
    requires p == [HandOverTimelock] + rest && n > 0 && w1 == w.(jettonTimelock := b.timelock)
    requires b.Valid() && Standing(b, w) && JettonMasterC in w.live
    ensures Run(b, p, w, Smooth(n)).end == Run(b, rest, w1, Smooth(n - 1)).end
    ensures Run(b, p, w, Smooth(n)).world == Run(b, rest, w1, Smooth(n - 1)).world
  {
    assert p[1..] == rest;
    TimelockStep(b, w);
    RunFirst(b, p, w, n);
  }

  lemma FinalParts(checks: seq<Step>, last: seq<Step>)
    ensures [HandOverTimelock] + checks + last == [HandOverTimelock] + (checks + last)
  {
  }

  lemma TimelockKeepsFinalizing(b: AddressBook, p: seq<Step>, rest: seq<Step>, w: World, w1: World, n: nat)
    requires p == [HandOverTimelock] + rest && n > 0 && w1 == w.(jettonTimelock := b.timelock)
    requires b.Valid() && Standing(b, w) && JettonMasterC in w.live && Finalizes(b, rest, w1, n - 1)
    ensures Finalizes(b, p, w, n)
  {
    TimelockFirst(b, p, rest, w, w1, n);
  }

  lemma FinalTail(b: AddressBook, w: World, n: nat)
    requires b.DistinctReceivers() && b.Valid() && Settled(b, w) && n >= |Checks(b)| + 4
    ensures Finalizes(b, Tail(b, true), w, n)
  {
    var checks, last, w1 := Checks(b), [StopMinting, RevokeAdmin, Record(true)], w.(jettonTimelock := b.timelock);
    SetUpIsSettled(b);
    forall t | t in checks ensures Idles(b, t, w1, true) { ChecksSkip(b, w1, t); }
    RunIdles(b, checks, w1, n - 1, true);
    ChecksThenRevoke(b, checks, w1, n - 1);
    FinalParts(checks, last);
    TimelockKeepsFinalizing(b, Tail(b, true), checks + last, w, w1, n);
  }

  /** Every message lands and every read succeeds. */
  ghost predicate Undisturbed(history: seq<Event>) {
    forall i :: 0 <= i < |history| ==> history[i].Launch? && history[i].fates == Smooth(|history[i].fates|)
  }

  lemma LaunchStaysUnderWay(b: AddressBook, finalize: bool, w: World, n: nat)
    requires b.DistinctReceivers() && b.Valid() && UnderWay(b, w)
    ensures UnderWay(b, Run(b, Program(b, finalize), w, Smooth(n)).world)
  {
    if n < |Head(b)| {
      LaunchStops(b, finalize, w, n);
    } else {
      LaunchGoesOn(b, finalize, w, n);
      SetUpIsSettled(b);
      TailIsOrdered(b, finalize, Entry(b, w));
      OwnStepsSettle(b, Tail(b, finalize), SetUp(b), Entry(b, w), n - |Head(b)|);
    }
  }

  lemma {:induction false} HistoryUnderWay(b: AddressBook, history: seq<Event>)
    requires b.DistinctReceivers() && b.Valid() && Undisturbed(history)
    ensures UnderWay(b, Reached(b, history))
    decreases |history|
  {
    if history == [] {
      var ws := HeadIsSteady(b);
      assert ws[0] == HeadWorld(b, 0);
    } else {
      var init, last := history[..|history| - 1], history[|history| - 1];
      HistoryUnderWay(b, init);
      LaunchStaysUnderWay(b, last.finalize, Reached(b, init), |last.fates|);
    }
  }

  lemma HeadWorldAuthority(b: AddressBook, n: nat)
    requires b.DistinctReceivers() && n <= |Head(b)|
    ensures var w := HeadWorld(b, n); w.admin == b.deployer && w.mintable
  {
    forall t | t in DoneBy(Head(b), n) ensures Shared(t) { HeadIsShared(b, t); }
    SharedLeavesAuthority(b, DoneBy(Head(b), n));
    WorldAfterPrefix(b, Head(b), n);
  }

  lemma EntryKeepsAuthority(b: AddressBook, w: World)
    requires b.DistinctReceivers() && b.Valid() && UnderWay(b, w)
    ensures Settled(b, Entry(b, w)) && Entry(b, w).admin == w.admin && Entry(b, w).mintable == w.mintable
  {
    if !Settled(b, w) {
      SetUpIsSettled(b);
      var n: nat :| n <= |Head(b)| && w == HeadWorld(b, n);
      HeadWorldAuthority(b, n);
      HeadWorldAuthority(b, |Head(b)|);
    }
  }

  /** An uninterrupted launch from anywhere along the way ends as its own steps end. */
  lemma FullRunEnds(b: AddressBook, finalize: bool, w: World, m: nat)
    requires b.DistinctReceivers() && b.Valid() && UnderWay(b, w) && m == |Tail(b, finalize)|
    ensures var full, own := FullRun(b, finalize, w), Run(b, Tail(b, finalize), Entry(b, w), Smooth(m));
      full.end == own.end && full.world == own.world && (Settled(b, w) ==> full.sent == own.sent)
  {
    ProgramIsHeadAndTail(b, finalize);
    LaunchGoesOn(b, finalize, w, |Head(b)| + m);
  }

  lemma FullRunFrom(b: AddressBook, finalize: bool, w: World)
    requires b.DistinctReceivers() && b.Valid() && UnderWay(b, w)
    ensures var full := FullRun(b, finalize, w);
      && (full.end == Done <==> !finalize || w.admin != b.timelock)
      && (full.end == Done ==> full.world == Finished(b, finalize, Entry(b, w)))
  {
    var v, m := Entry(b, w), |Tail(b, finalize)|;
    FullRunEnds(b, finalize, w, m);
    EntryKeepsAuthority(b, w);
    if finalize {
      FinalTail(b, v, m);
    } else {
      SetUpIsSettled(b);
      OrdinaryTail(b, v, m);
    }
  }

  lemma OwnStepIdles(b: AddressBook, finalize: bool, w: World, t: Step)
    requires b.Valid() && Standing(b, w) && JettonMasterC in w.live && w == Finished(b, finalize, w)
    requires t == HandOverTimelock || (if finalize then t == StopMinting || t == RevokeAdmin || t == Record(true)
                                       else t == HandOverAdmin || t == Record(false))
    ensures Idles(b, t, w, finalize || w.admin == b.timelock)
  {
  }

  lemma TailMembers(b: AddressBook, finalize: bool, t: Step)
    requires t in Tail(b, finalize)
    ensures t in Checks(b) || t == HandOverTimelock
      || (if finalize then t == StopMinting || t == RevokeAdmin || t == Record(true)
          else t == HandOverAdmin || t == Record(false))
  {
  }

  lemma FinishedIdles(b: AddressBook, finalize: bool, w: World, t: Step)
    requires b.DistinctReceivers() && b.Valid() && Settled(b, w) && w == Finished(b, finalize, w)
    requires t in Tail(b, finalize)
    ensures Idles(b, t, w, finalize || w.admin == b.timelock)
  {
    SetUpIsSettled(b);
    TailMembers(b, finalize, t);
    if t in Checks(b) {
      ChecksSkip(b, w, t);
    } else {
      OwnStepIdles(b, finalize, w, t);
    }
  }

  /** A launch of the same mode changes nothing any more; only `ChangeOwner` to a revoked master may still be sent. */
  lemma LaterLaunch(b: AddressBook, finalize: bool, w: World, n: nat)
    requires b.DistinctReceivers() && b.Valid() && Settled(b, w) && w == Finished(b, finalize, w)
    ensures var r := Run(b, Program(b, finalize), w, Smooth(n));
      r.world == w && (finalize || w.admin == b.timelock ==> r.sent == [])
  {
    if n < |Head(b)| {
      LaunchStops(b, finalize, w, n);
    } else {
      LaunchGoesOn(b, finalize, w, n);
      forall t | t in Tail(b, finalize) ensures Idles(b, t, w, finalize || w.admin == b.timelock) {
        FinishedIdles(b, finalize, w, t);
      }
      RunIdles(b, Tail(b, finalize), w, n - |Head(b)|, finalize || w.admin == b.timelock);
    }
  }

  lemma FinishedIsSettled(b: AddressBook, finalize: bool, v: World)
    requires b.DistinctReceivers() && b.Valid() && Settled(b, v)
    ensures var w := Finished(b, finalize, v); Settled(b, w) && w == Finished(b, finalize, w)
  {
  }

  /**
   * After launches of both modes in any mixture, crashed anywhere: an uninterrupted ordinary launch completes, and a
   * finalizing one exactly when the admin has not been handed to the timelock. What a completed launch leaves is what
   * a fresh one leaves, but that an ordinary one cannot undo a closed mint or a revoked admin; and the same launch
   * again changes nothing, and sends nothing unless it is an ordinary one on a revoked admin.
   */
  lemma MixedLaunchesConverge(b: AddressBook, history: seq<Event>, finalize: bool, later: nat)
    requires b.DistinctReceivers() && b.Valid() && Undisturbed(history)
    ensures var w := Reached(b, history);
      var full, first := FullRun(b, finalize, w), FullRun(b, finalize, Untouched(b)).world;
      var again := Run(b, Program(b, finalize), full.world, Smooth(later));
      && (full.end == Done <==> !finalize || w.admin != b.timelock)
      && (full.end == Done ==>
            && full.world == (if finalize then first else
                 first.(mintable := w.mintable,
                        admin := if w.admin == REVOKED_ADMIN then REVOKED_ADMIN else b.timelock))
            && again.world == full.world
            && (finalize || w.admin != REVOKED_ADMIN ==> again.sent == []))
  {
    var w := Reached(b, history);
    HistoryUnderWay(b, history);
    HistoryUnderWay(b, []);
    FullRunFrom(b, finalize, w);
    FullRunFrom(b, finalize, Untouched(b));
    EntryKeepsAuthority(b, w);
    EntryKeepsAuthority(b, Untouched(b));
    if FullRun(b, finalize, w).end == Done {
      FinishedIsSettled(b, finalize, Entry(b, w));
      LaterLaunch(b, finalize, FullRun(b, finalize, w).world, later);
    }
  }

  /** On a revoked admin an ordinary launch completes: it sends one message, which bounces, and records `false`. */
  lemma OrdinaryAfterFinal(b: AddressBook, history: seq<Event>)
    requires b.DistinctReceivers() && b.Valid() && Undisturbed(history) && Reached(b, history).admin == REVOKED_ADMIN
    ensures var w := Reached(b, history);
      FullRun(b, false, w) == RunResult(w.(record := Some(false)), Done, [ChangeOwner(b.timelock)])
  {
    var w := Reached(b, history);
    HistoryUnderWay(b, history);
    EntryKeepsAuthority(b, w);
    SetUpIsSettled(b);
    FullRunEnds(b, false, w, 3);
    OrdinaryTail(b, w, 3);
  }
}
