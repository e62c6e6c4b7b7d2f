/**
 * What goes wrong, on reachable chains: an allocation is minted a second time when the read
 * of its wallet fails or when its first mint arrives late, and receivers that coincide stop
 * the launch.
 */
module BootstrapMishaps {
  import opened Common
  import opened Sums
  import opened Allocations
  import opened Chain
  import opened Script
  import opened BootstrapSafety
  import opened BootstrapConvergence

  // ----- One step after a run -----

  ghost predicate NoCrash(fates: seq<Fate>) {
    forall i :: 0 <= i < |fates| ==> fates[i].Go?
  }

  /** A run that used up its fates goes one step further with one more. */
  lemma {:induction false} RunThenOne(b: AddressBook, p: seq<Step>, w: World, fates: seq<Fate>, f: Fate)
    requires NoCrash(fates) && f.Go? && |fates| < |p| && Run(b, p, w, fates).end == Crashed
    ensures Run(b, p, w, fates + [f]).world == Play(b, p[|fates|], Run(b, p, w, fates).world, f).world
    decreases |p|
  {
    if fates == [] {
      assert fates + [f] == [f] && [f][1..] == [];
      RunCons(b, p, w, [f]);
      var s := Play(b, p[0], w, f);
      if s.ok { RunOfNoFates(b, p[1..], s.world); }
    } else {
      var more := fates + [f];
      assert more[0] == fates[0] && more[1..] == fates[1..] + [f];
      RunCons(b, p, w, fates);
      RunCons(b, p, w, more);
      var s := Play(b, p[0], w, fates[0]);
      RunThenOne(b, p[1..], s.world, fates[1..], f);
    }
  }

  lemma RunOfNoFates(b: AddressBook, p: seq<Step>, w: World)
    ensures Run(b, p, w, []).world == w
  {
  }

  /** A run whose steps are all applied changes nothing. */
  lemma {:induction false} RunSkips(b: AddressBook, p: seq<Step>, w: World, n: nat)
    requires n <= |p| && forall t :: t in p[..n] ==> Probe(b, t, w) == Skip
    ensures Run(b, p, w, Smooth(n)) == RunResult(w, if n == |p| then Done else Crashed, [])
    decreases n
  {
    if n == 0 {
    } else {
      assert p[0] in p[..n];
      RunFirst(b, p, w, n);
      forall t | t in p[1..][..n - 1] ensures Probe(b, t, w) == Skip { assert t in p[..n]; }
      RunSkips(b, p[1..], w, n - 1);
    }
  }

  // ----- Up to the mint of one allocation -----

  /** Place of the mint of allocation `k` in the step list. */
  function Place(k: nat): nat {
    |SetupSteps()| + k
  }

  /** The world when the steps `p` have been applied after `done`. */
  ghost function WorldAfter(b: AddressBook, p: seq<Step>, done: set<Step>): World
    requires b.DistinctReceivers()
    decreases |p|
  {
    if p == [] then WorldOf(b, done) else WorldAfter(b, p[1..], done + {p[0]})
  }

  lemma HeadAndRest(p: seq<Step>, done: set<Step>)
    requires p != []
    ensures done + {p[0]} + (set t | t in p[1..]) == done + set t | t in p
  {
    assert p == [p[0]] + p[1..];
  }

  lemma {:induction false} WorldAfterSteps(b: AddressBook, p: seq<Step>, done: set<Step>)
    requires b.DistinctReceivers()
    ensures WorldAfter(b, p, done) == WorldOf(b, done + set t | t in p)
    decreases |p|
  {
    if p == [] {
      assert done + (set t | t in p) == done;
    } else {
      WorldAfterSteps(b, p[1..], done + {p[0]});
      HeadAndRest(p, done);
    }
  }

  lemma WorldAfterPrefix(b: AddressBook, p: seq<Step>, n: nat)
    requires b.DistinctReceivers() && n <= |p|
    ensures WorldAfter(b, p[..n], {}) == WorldOf(b, DoneBy(p, n))
  {
    WorldAfterSteps(b, p[..n], {});
    assert {} + (set t | t in p[..n]) == DoneBy(p, n);
  }

  /** Exactly the steps before the mint of `k` are applied. */
  ghost function Before(b: AddressBook, finalize: bool, k: nat): World
    requires b.DistinctReceivers() && Place(k) <= |Program(b, finalize)|
  {
    WorldAfter(b, Program(b, finalize)[..Place(k)], {})
  }

  lemma MintPlace(b: AddressBook, finalize: bool, k: nat)
    requires k < |MINT_ALLOCATIONS|
    ensures var p := Program(b, finalize);
      && Place(k) < |p| && p[Place(k)] == MintTo(k) && p[..Place(k)] == SetupSteps() + MintSteps()[..k]
      && MintTo(k) !in p[..Place(k)]
  {
    var front, back := ProgramAroundMint(b, finalize, k);
    assert (front + [MintTo(k)] + back)[|front|] == MintTo(k);
    assert (front + [MintTo(k)] + back)[..|front|] == front;
  }

  lemma {:induction false} MintedBelow(minted: multiset<nat>, k: nat, n: nat)
    requires n <= |MINT_ALLOCATIONS| && k <= |MINT_ALLOCATIONS| && forall j: nat :: j < n ==> (j in minted <==> j < k)
    ensures MintedSum(minted, n) == PlanTotal(MINT_ALLOCATIONS[..if n < k then n else k])
    decreases n
  {
    if n == 0 {
    } else {
      MintedBelow(minted, k, n - 1);
      if n <= k {
        var plan := MINT_ALLOCATIONS[..n];
        assert plan[..n - 1] == MINT_ALLOCATIONS[..n - 1];
      }
    }
  }

  /** The chain takes the mint of allocation `k` as far as the cap has room, and its receiver is empty. */
  ghost predicate Ready(b: AddressBook, k: nat, w: World)
    requires k < |MINT_ALLOCATIONS|
  {
    && {JettonMasterC, StakingMasterC} <= w.live && w.admin == b.deployer && w.mintable && w.poolMaster.Some?
    && Get(w.balances, b.ReceiverOf(k)) == 0 && w.minted[k] == 0 && w.late == multiset{}
    && w.totalSupply == PlanTotal(MINT_ALLOCATIONS[..k]) && w.unrelayed == 0
    && (k == EMISSION ==> w.emissionFunded == 0)
  }

  /** What is applied before the mint of `k`. */
  lemma DoneBefore(b: AddressBook, finalize: bool, k: nat) returns (done: set<Step>)
    requires k < |MINT_ALLOCATIONS|
    ensures Place(k) < |Program(b, finalize)| && done == DoneBy(Program(b, finalize), Place(k))
    ensures Behind(MintTo(k), done) && Ahead(MintTo(k), done)
    ensures forall j: nat :: MintTo(j) in done <==> j < k
  {
    var p, i := Program(b, finalize), Place(k);
    MintPlace(b, finalize, k);
    done := DoneBy(p, i);
    ProgramIsRanked(b, finalize);
    forall u ensures u in p <==> Listed(b, finalize, u) { ProgramMembers(b, finalize, u); }
    RankedIsUpto(b, finalize, p, i, i);
    assert MintTo(k) !in done;
    UptoIsBehind(b, finalize, MintTo(k), done);
    UptoIsAhead(b, finalize, MintTo(k), done);
    forall j: nat ensures MintTo(j) in done <==> j < k {
      MintsBefore(p[..i], k, j);
    }
  }

  lemma MintsBefore(front: seq<Step>, k: nat, j: nat)
    requires k <= |MINT_ALLOCATIONS| && front == SetupSteps() + MintSteps()[..k]
    ensures MintTo(j) in front <==> j < k
  {
    SetupMembers(MintTo(j));
    if j < k { assert MintSteps()[..k][j] == MintTo(j); }
  }

  lemma DoneIsReady(b: AddressBook, k: nat, done: set<Step>)
    requires b.DistinctReceivers() && k < |MINT_ALLOCATIONS| && Behind(MintTo(k), done) && Ahead(MintTo(k), done)
    requires forall j: nat :: MintTo(j) in done <==> j < k
    ensures Ready(b, k, WorldOf(b, done))
  {
    BalanceIn(b, done, k);
    MintedBelow(MintedIn(done), k, |MINT_ALLOCATIONS|);
  }

  lemma ReadyBefore(b: AddressBook, finalize: bool, k: nat)
    requires b.DistinctReceivers() && k < |MINT_ALLOCATIONS|
    ensures Place(k) < |Program(b, finalize)| && Ready(b, k, Before(b, finalize, k))
  {
    var done := DoneBefore(b, finalize, k);
    DoneIsReady(b, k, done);
    WorldAfterPrefix(b, Program(b, finalize), Place(k));
  }

  /** `w'` differs from `w` at most in what mints of allocation `k` change. */
  ghost predicate Beside(b: AddressBook, k: nat, w: World, w': World)
    requires k < |MINT_ALLOCATIONS|
  {
    && w' == w.(balances := w'.balances, totalSupply := w'.totalSupply, minted := w'.minted, late := w'.late,
                emissionFunded := w'.emissionFunded, unrelayed := w'.unrelayed)
    && (forall a :: a != b.ReceiverOf(k) ==> Get(w'.balances, a) == Get(w.balances, a))
    && (k != EMISSION ==> w'.emissionFunded == w.emissionFunded)
  }

  lemma SkippedBeside(b: AddressBook, t: Step, k: nat, w: World, w': World)
    requires b.DistinctReceivers() && k < |MINT_ALLOCATIONS| && Beside(b, k, w, w') && Probe(b, t, w) == Skip
    requires t.Deploy? || t.Wire? || t.SetJettonWallet? || t.PointGovernor? || (t.MintTo? && t.k < k)
    ensures Probe(b, t, w') == Skip
  {
    if t.MintTo? { assert b.ReceiverOf(t.k) != b.ReceiverOf(k); }
  }

  lemma AppliedBefore(b: AddressBook, finalize: bool, k: nat, t: Step)
    requires b.DistinctReceivers() && k < |MINT_ALLOCATIONS| && Place(k) < |Program(b, finalize)|
    requires t in Program(b, finalize)[..Place(k)]
    ensures Probe(b, t, Before(b, finalize, k)) == Skip
    ensures t.Deploy? || t.Wire? || t.SetJettonWallet? || t.PointGovernor? || (t.MintTo? && t.k < k)
  {
    var done := DoneBefore(b, finalize, k);
    assert t in done;
    KindBefore(b, finalize, k, t);
    DoneIsSkipped(b, t, done);
    WorldAfterPrefix(b, Program(b, finalize), Place(k));
  }

  lemma KindBefore(b: AddressBook, finalize: bool, k: nat, t: Step)
    requires k < |MINT_ALLOCATIONS| && Place(k) < |Program(b, finalize)| && t in Program(b, finalize)[..Place(k)]
    ensures t.Deploy? || t.Wire? || t.SetJettonWallet? || t.PointGovernor? || (t.MintTo? && t.k < k)
    ensures forall done :: Behind(MintTo(k), done) ==> Reads(t) <= LiveIn(done)
  {
    MintPlace(b, finalize, k);
    SetupMembers(t);
    MintMembers(t);
    if t.MintTo? { MintsBefore(Program(b, finalize)[..Place(k)], k, t.k); }
  }

  lemma RunThenMint(b: AddressBook, finalize: bool, k: nat, w: World, w1: World, f: Fate)
    requires k < |MINT_ALLOCATIONS| && f.Go? && Place(k) < |Program(b, finalize)|
    requires var r := Run(b, Program(b, finalize), w, Smooth(Place(k))); r.end == Crashed && r.world == w1
    ensures Run(b, Program(b, finalize), w, Smooth(Place(k)) + [f]).world == Play(b, MintTo(k), w1, f).world
  {
    MintPlace(b, finalize, k);
    RunThenOne(b, Program(b, finalize), w, Smooth(Place(k)), f);
  }

  /** A launch that starts beside the world before the mint of `k` comes to that mint with nothing changed. */
  lemma Resumed(b: AddressBook, finalize: bool, k: nat, w: World, f: Fate)
    requires b.DistinctReceivers() && b.Valid() && k < |MINT_ALLOCATIONS| && Place(k) < |Program(b, finalize)|
    requires Beside(b, k, Before(b, finalize, k), w) && f.Go?
    ensures Run(b, Program(b, finalize), w, Smooth(Place(k)) + [f]).world == Play(b, MintTo(k), w, f).world
  {
    var p, i := Program(b, finalize), Place(k);
    forall t | t in p[..i] ensures Probe(b, t, w) == Skip {
      AppliedBefore(b, finalize, k, t);
      SkippedBeside(b, t, k, Before(b, finalize, k), w);
    }
    RunSkips(b, p, w, i);
    RunThenMint(b, finalize, k, w, w, f);
  }

  /** So does a first launch. */
  lemma FirstStop(b: AddressBook, finalize: bool, k: nat, f: Fate)
    requires b.DistinctReceivers() && b.Valid() && k < |MINT_ALLOCATIONS| && Place(k) < |Program(b, finalize)| && f.Go?
    ensures Run(b, Program(b, finalize), Untouched(b), Smooth(Place(k)) + [f]).world
      == Play(b, MintTo(k), Before(b, finalize, k), f).world
  {
    var p, i := Program(b, finalize), Place(k);
    ProgramIsSteady(b, finalize);
    UntouchedIsEmpty(b, p);
    SmoothLaunch(b, p, Worlds(b, p), 0, i);
    WorldAfterPrefix(b, p, i);
    RunThenMint(b, finalize, k, Untouched(b), Before(b, finalize, k), f);
  }

  // ----- Two mints of one allocation -----

  /** What one more event makes of a world. */
  function Happens(b: AddressBook, w: World, e: Event): World {
    match e
    case Launch(finalize, fates) => Run(b, Program(b, finalize), w, fates).world
    case Arrives(arrival) => Arrive(b, arrival, w)
  }

  lemma ReachedThen(b: AddressBook, history: seq<Event>, e: Event)
    ensures Reached(b, history + [e]) == Happens(b, Reached(b, history), e)
  {
    assert (history + [e])[..|history|] == history;
  }

  lemma ReachedFirst(b: AddressBook, e: Event)
    ensures Reached(b, [e]) == Happens(b, Untouched(b), e)
  {
    ReachedThen(b, [], e);
    assert [] + [e] == [e];
  }

  /** A launch that comes to the mint of `k` and stops there. */
  function UpToMint(finalize: bool, k: nat, f: Fate): Event {
    Launch(finalize, Smooth(Place(k)) + [f])
  }

  /** Two such launches. */
  lemma AfterTwoLaunches(b: AddressBook, finalize: bool, k: nat, f: Fate, g: Fate, w: World)
    requires b.DistinctReceivers() && b.Valid() && k < |MINT_ALLOCATIONS| && Place(k) < |Program(b, finalize)|
    requires f.Go? && g.Go? && w == Play(b, MintTo(k), Before(b, finalize, k), f).world
    requires Beside(b, k, Before(b, finalize, k), w)
    ensures Reached(b, [UpToMint(finalize, k, f)] + [UpToMint(finalize, k, g)]) == Play(b, MintTo(k), w, g).world
  {
    ReachedFirst(b, UpToMint(finalize, k, f));
    FirstStop(b, finalize, k, f);
    ReachedThen(b, [UpToMint(finalize, k, f)], UpToMint(finalize, k, g));
    Resumed(b, finalize, k, w, g);
  }

  /** The plan up to allocation `k`, with `k` once more, is within the cap. */
  predicate RoomForTwo(k: nat)
    requires k < |MINT_ALLOCATIONS|
  {
    PlanTotal(MINT_ALLOCATIONS[..k]) + 2 * AmountOf(k) <= MAX_SUPPLY_NANO
  }

  lemma RoomForTwoIff(k: nat)
    requires k < |MINT_ALLOCATIONS|
    ensures RoomForTwo(k) <==> k < 4
    ensures PlanTotal(MINT_ALLOCATIONS[..k]) + AmountOf(k) <= MAX_SUPPLY_NANO
  {
    var p := MINT_ALLOCATIONS;
    assert p[..1][..0] == p[..0] && p[..2][..1] == p[..1] && p[..3][..2] == p[..2];
    assert p[..4][..3] == p[..3] && p[..5][..4] == p[..4];
    assert PlanTotal(p[..0]) == 0;
    assert PlanTotal(p[..1]) == 7 * NANO;
    assert PlanTotal(p[..2]) == 207 * NANO;
    assert PlanTotal(p[..3]) == 507 * NANO;
    assert PlanTotal(p[..4]) == 657 * NANO;
    assert PlanTotal(p[..5]) == 957 * NANO;
  }

  lemma MintIsSent(b: AddressBook, k: nat, w: World, f: Fate)
    requires k < |MINT_ALLOCATIONS| && f.Go? && f.arrivals == [] && StakingMasterC in w.live
    requires Get(w.balances, b.ReceiverOf(k)) == 0 && (k == EMISSION ==> w.emissionFunded == 0)
    ensures Play(b, MintTo(k), w, f).world == Transmit(b, Mint(k), w, f.delivery)
  {
  }

  /** The mint of `k` lands on a world that is ready for it. */
  lemma FirstMint(b: AddressBook, k: nat, w: World, d: Delivery)
    requires k < |MINT_ALLOCATIONS| && Ready(b, k, w)
    ensures var w' := Play(b, MintTo(k), w, Go([], d, false)).world;
      && Beside(b, k, w, w') && w' == Transmit(b, Mint(k), w, d)
  {
    MintIsSent(b, k, w, Go([], d, false));
  }

  lemma SecondMint(b: AddressBook, k: nat, w: World, w1: World, d: Delivery, e: Delivery)
    requires k < |MINT_ALLOCATIONS| && Ready(b, k, w) && !d.Lost? && !e.Lost? && w1 == Transmit(b, Mint(k), w, d)
    ensures var w2 := Transmit(b, Mint(k), w1, e);
      && (w2.minted[k] == 2 <==> RoomForTwo(k)) && w2.minted[k] <= 2
      && MintDecision(b, k, w2) ==
           if !RoomForTwo(k) || (k == EMISSION && (d.Lands? || e.Lands?)) then Skip else Refuse
  {
    RoomForTwoIff(k);
    assert AmountOf(EMISSION) == TOTAL_EMISSION_NANO;
  }

  /** The mint lands, crash; the next launch cannot read the receiver. */
  function FailedRead(finalize: bool, k: nat): seq<Event> {
    [UpToMint(finalize, k, Go([], LandsUnrelayed, false))] + [UpToMint(finalize, k, Go([], Lands, true))]
  }

  /**
   * A launch that cannot read the receiver of a minted allocation sends it again, and it lands exactly when the cap
   * has room, which it has for the first four allocations. The next probe refuses what was minted twice, but the
   * emission: its relay has arrived now, and the probe passes.
   */
  lemma FailedReadMintsTwiceIff(b: AddressBook, finalize: bool, k: nat)
    requires b.DistinctReceivers() && b.Valid() && k < |MINT_ALLOCATIONS|
    ensures var w := Reached(b, FailedRead(finalize, k));
      && (w.minted[k] == 2 <==> k < 4) && w.minted[k] <= 2
      && MintDecision(b, k, w) == if k >= 4 || k == EMISSION then Skip else Refuse
  {
    ReadyBefore(b, finalize, k);
    RoomForTwoIff(k);
    var w0 := Before(b, finalize, k);
    FirstMint(b, k, w0, LandsUnrelayed);
    var w1 := Transmit(b, Mint(k), w0, LandsUnrelayed);
    AfterTwoLaunches(b, finalize, k, Go([], LandsUnrelayed, false), Go([], Lands, true), w1);
    UnreadMint(b, k, w0, w1);
    SecondMint(b, k, w0, w1, LandsUnrelayed, Lands);
  }

  lemma UnreadMint(b: AddressBook, k: nat, w: World, w1: World)
    requires k < |MINT_ALLOCATIONS| && Ready(b, k, w) && w1 == Transmit(b, Mint(k), w, LandsUnrelayed)
    ensures Play(b, MintTo(k), w1, Go([], Lands, true)).world == Transmit(b, Mint(k), w1, Lands)
  {
  }

  /** The mint is sent and late, crash; the next launch sends it again; then the first one arrives. */
  function LateMint(finalize: bool, k: nat, d: Delivery, relayed: bool): seq<Event> {
    [UpToMint(finalize, k, Go([], Lost, false))] + [UpToMint(finalize, k, Go([], d, false))]
    + [Arrives(MintArrives(k, relayed))]
  }

  /**
   * A mint that is still on its way when the next launch probes its receiver is sent again, and both land exactly when
   * the cap has room, which it has for the first four allocations. The next probe refuses then; for the emission it
   * does so only while no relay has arrived, and with a relay it passes.
   */
  lemma LateMintLandsTwiceIff(b: AddressBook, finalize: bool, k: nat, d: Delivery, relayed: bool)
    requires b.DistinctReceivers() && b.Valid() && k < |MINT_ALLOCATIONS| && !d.Lost?
    ensures var w := Reached(b, LateMint(finalize, k, d, relayed));
      && (w.minted[k] == 2 <==> k < 4) && w.minted[k] <= 2
      && MintDecision(b, k, w) == if k >= 4 || (k == EMISSION && (d.Lands? || relayed)) then Skip else Refuse
  {
    ReadyBefore(b, finalize, k);
    RoomForTwoIff(k);
    var w0 := Before(b, finalize, k);
    FirstMint(b, k, w0, Lost);
    AfterTwoLaunches(b, finalize, k, Go([], Lost, false), Go([], d, false), Transmit(b, Mint(k), w0, Lost));
    LateIsInert(b, k, w0, d);
    var two := [UpToMint(finalize, k, Go([], Lost, false))] + [UpToMint(finalize, k, Go([], d, false))];
    ReachedThen(b, two, Arrives(MintArrives(k, relayed)));
    LateArrives(b, k, w0, d, relayed);
    SecondMint(b, k, w0, Transmit(b, Mint(k), w0, d), d, if relayed then Lands else LandsUnrelayed);
  }

  lemma LateIsInert(b: AddressBook, k: nat, w: World, d: Delivery)
    requires k < |MINT_ALLOCATIONS| && Ready(b, k, w) && !d.Lost?
    ensures Play(b, MintTo(k), Transmit(b, Mint(k), w, Lost), Go([], d, false)).world
      == Transmit(b, Mint(k), w, d).(late := multiset{k})
  {
    var w1 := Transmit(b, Mint(k), w, Lost);
    assert w1 == w.(late := multiset{k});
    MintIsSent(b, k, w1, Go([], d, false));
  }

  lemma LateArrives(b: AddressBook, k: nat, w: World, d: Delivery, relayed: bool)
    requires k < |MINT_ALLOCATIONS| && Ready(b, k, w) && !d.Lost?
    ensures var w1 := Transmit(b, Mint(k), w, d);
      Arrive(b, MintArrives(k, relayed), w1.(late := multiset{k}))
        == Transmit(b, Mint(k), w1, if relayed then Lands else LandsUnrelayed)
  {
    var w1 := Transmit(b, Mint(k), w, d);
    assert w1.late == multiset{};
    assert w1.(late := multiset{k}).(late := multiset{k} - multiset{k}) == w1;
  }

  // ----- Any second mint -----

  /** The emission is funded in full or not at all, and a missing relay would fund it. */
  ghost predicate WholeRelays(w: World) {
    (w.emissionFunded == 0 || w.emissionFunded == TOTAL_EMISSION_NANO)
      && (w.unrelayed == 0 || w.unrelayed >= TOTAL_EMISSION_NANO)
  }

  lemma MessageKeepsRelays(b: AddressBook, m: Msg, w: World, d: Delivery)
    requires WholeRelays(w)
    ensures WholeRelays(Transmit(b, m, w, d))
  {
    assert AmountOf(EMISSION) == TOTAL_EMISSION_NANO;
    if !d.Lost? && Accepts(b, m, w) && !m.Mint? { OthersKeepLedger(b, m, w, d.Lands?); }
  }

  lemma ArriveKeepsRelays(b: AddressBook, a: Arrival, w: World)
    requires WholeRelays(w)
    ensures WholeRelays(Arrive(b, a, w))
  {
    if a.MintArrives? && a.k in w.late {
      MessageKeepsRelays(b, Mint(a.k), w.(late := w.late - multiset{a.k}), if a.relayed then Lands else LandsUnrelayed);
    }
  }

  lemma {:induction false} ArrivalsKeepRelays(b: AddressBook, arrivals: seq<Arrival>, w: World)
    requires WholeRelays(w)
    ensures WholeRelays(Arrivals(b, arrivals, w))
    decreases |arrivals|
  {
    if arrivals != [] {
      ArriveKeepsRelays(b, arrivals[0], w);
      ArrivalsKeepRelays(b, arrivals[1..], Arrive(b, arrivals[0], w));
    }
  }

  lemma PlayKeepsRelays(b: AddressBook, t: Step, w: World, f: Fate)
    requires WholeRelays(w) && f.Go?
    ensures WholeRelays(Play(b, t, w, f).world)
  {
    ArrivalsKeepRelays(b, f.arrivals, w);
    var w1 := Arrivals(b, f.arrivals, w);
    match Probe(b, t, Seen(w1, f.blind))
    case Send(m) => MessageKeepsRelays(b, m, w1, f.delivery);
    case Save(_) =>
    case _ =>
  }

  lemma {:induction false} RunKeepsRelays(b: AddressBook, steps: seq<Step>, w: World, fates: seq<Fate>)
    requires WholeRelays(w)
    ensures WholeRelays(Run(b, steps, w, fates).world)
    decreases |steps|
  {
    if steps == [] || fates == [] || fates[0].Crash? {
    } else {
      PlayKeepsRelays(b, steps[0], w, fates[0]);
      RunCons(b, steps, w, fates);
      var s := Play(b, steps[0], w, fates[0]);
      if s.ok { RunKeepsRelays(b, steps[1..], s.world, fates[1..]); }
    }
  }

  lemma {:induction false} HistoryKeepsRelays(b: AddressBook, history: seq<Event>)
    ensures WholeRelays(Reached(b, history))
    decreases |history|
  {
    if history != [] {
      var init, last := history[..|history| - 1], history[|history| - 1];
      HistoryKeepsRelays(b, init);
      match last
      case Launch(finalize, fates) => RunKeepsRelays(b, Program(b, finalize), Reached(b, init), fates);
      case Arrives(a) => ArriveKeepsRelays(b, a, Reached(b, init));
    }
  }

  /**
   * However a history came to it: once an allocation was minted twice its next probe refuses, unless it is the emission
   * and a relay has arrived, of an earlier mint or of this one; then the probe passes.
   */
  lemma SecondMintIsSilentIff(b: AddressBook, history: seq<Event>, k: nat, d: Delivery)
    requires b.Valid() && MessageClashes(b, OnAllocation, Mint(k), Reached(b, history), d)
    ensures var w := Reached(b, history);
      MintDecision(b, k, Transmit(b, Mint(k), w, d)) ==
        if k == EMISSION && (w.emissionFunded != 0 || (d.Lands? && w.poolMaster.Some?)) then Skip else Refuse
  {
    var w := Reached(b, history);
    HistoryIsSafe(b, history);
    HistoryKeepsRelays(b, history);
    assert Get(w.balances, b.ReceiverOf(k)) >= AmountOf(k);
    assert AmountOf(EMISSION) == TOTAL_EMISSION_NANO;
  }

  // ----- Two allocations, one receiver -----

  const AIRDROP: nat := 1
  const LIQUIDITY: nat := 4

  /** The airdrop and the liquidity allocation go to one wallet, all others to wallets of their own. */
  ghost predicate SharedHolder(b: AddressBook) {
    && b.airdropHolder == b.liquidityHolder
    && forall j, k :: 0 <= j < k < |MINT_ALLOCATIONS| && j != LIQUIDITY && k != LIQUIDITY ==>
         b.ReceiverOf(j) != b.ReceiverOf(k)
  }

  /** The same deployment with a liquidity wallet of its own. */
  lemma OwnHolder(b: AddressBook) returns (own: AddressBook)
    requires b.Valid() && SharedHolder(b)
    ensures own.Valid() && own.DistinctReceivers() && own == b.(liquidityHolder := own.liquidityHolder)
  {
    var n := b.vestingDeveloper.hash + b.airdropHolder.hash + b.stakingPool.hash + b.vestingEcosystem.hash
      + b.vestingReserve.hash + 1;
    own := b.(liquidityHolder := Address(0, n));
    forall j, k | 0 <= j < k < |MINT_ALLOCATIONS| ensures own.ReceiverOf(j) != own.ReceiverOf(k) {
      if j == LIQUIDITY {
        assert own.ReceiverOf(k).hash < n;
      } else if k == LIQUIDITY {
        assert own.ReceiverOf(j).hash < n;
      } else {
        assert own.ReceiverOf(j) == b.ReceiverOf(j) && own.ReceiverOf(k) == b.ReceiverOf(k);
      }
    }
  }

  lemma SameStep(b: AddressBook, own: AddressBook, t: Step, w: World)
    requires own == b.(liquidityHolder := own.liquidityHolder)
    requires t.Deploy? || t.Wire? || t.SetJettonWallet? || t.PointGovernor? || (t.MintTo? && t.k < LIQUIDITY)
    ensures Perform(b, t, w, Lands, false) == Perform(own, t, w, Lands, false)
  {
    if t.MintTo? {
      assert own.ReceiverOf(t.k) == b.ReceiverOf(t.k);
      assert Probe(b, t, w).Send? ==> Probe(b, t, w).msg == Mint(t.k);
    }
  }

  lemma {:induction false} SameRun(b: AddressBook, own: AddressBook, steps: seq<Step>, w: World, n: nat)
    requires own == b.(liquidityHolder := own.liquidityHolder)
    requires forall t :: t in steps ==>
      t.Deploy? || t.Wire? || t.SetJettonWallet? || t.PointGovernor? || (t.MintTo? && t.k < LIQUIDITY)
    ensures Run(b, steps, w, Smooth(n)) == Run(own, steps, w, Smooth(n))
    decreases |steps|
  {
    if steps == [] || n == 0 {
    } else {
      RunFirst(b, steps, w, n);
      RunFirst(own, steps, w, n);
      SameStep(b, own, steps[0], w);
      SameRun(b, own, steps[1..], Perform(b, steps[0], w, Lands, false).world, n - 1);
    }
  }

  /** A run that gets no further than its first `n` steps is a run of these. */
  lemma {:induction false} RunIsCut(b: AddressBook, p: seq<Step>, w: World, n: nat)
    requires n < |p|
    ensures var r, cut := Run(b, p, w, Smooth(n)), Run(b, p[..n], w, Smooth(n));
      r == if cut.end == Done then cut.(end := Crashed) else cut
    decreases n
  {
    if n == 0 {
    } else {
      assert p[..n][1..] == p[1..][..n - 1];
      RunFirst(b, p, w, n);
      RunFirst(b, p[..n], w, n);
      RunIsCut(b, p[1..], Perform(b, p[0], w, Lands, false).world, n - 1);
    }
  }

  /** A run that comes to a step that is refused ends there. */
  lemma {:induction false} RunIsRefused(b: AddressBook, p: seq<Step>, w: World, n: nat, total: nat)
    requires n < |p| && n < total && Run(b, p, w, Smooth(n)).end == Crashed
    requires Probe(b, p[n], Run(b, p, w, Smooth(n)).world) == Refuse
    ensures Run(b, p, w, Smooth(total)) == Run(b, p, w, Smooth(n)).(end := Refused)
    decreases n
  {
    RunFirst(b, p, w, total);
    if n == 0 {
      assert Run(b, p, w, Smooth(0)) == RunResult(w, Crashed, []);
    } else {
      RunFirst(b, p, w, n);
      RunIsRefused(b, p[1..], Perform(b, p[0], w, Lands, false).world, n - 1, total - 1);
    }
  }

  /** Up to the liquidity mint nothing depends on the liquidity wallet. */
  lemma SameUpToLiquidity(b: AddressBook, own: AddressBook, finalize: bool)
    requires own.Valid() && own.DistinctReceivers() && own == b.(liquidityHolder := own.liquidityHolder)
    ensures Place(LIQUIDITY) < |Program(b, finalize)| && Place(LIQUIDITY) < |Program(own, finalize)|
    ensures var r := Run(b, Program(b, finalize), Untouched(b), Smooth(Place(LIQUIDITY)));
      && r.world == Before(own, finalize, LIQUIDITY) && r.end == Crashed
      && forall k: nat :: k >= LIQUIDITY ==> Mint(k) !in r.sent
  {
    var p, q, n := Program(b, finalize), Program(own, finalize), Place(LIQUIDITY);
    MintPlace(b, finalize, LIQUIDITY);
    MintPlace(own, finalize, LIQUIDITY);
    var front := p[..n];
    assert front == q[..n];
    forall t | t in front
      ensures t.Deploy? || t.Wire? || t.SetJettonWallet? || t.PointGovernor? || (t.MintTo? && t.k < LIQUIDITY)
    {
      KindBefore(b, finalize, LIQUIDITY, t);
    }
    SameRun(b, own, front, Untouched(b), n);
    RunIsCut(b, p, Untouched(b), n);
    RunIsCut(own, q, Untouched(b), n);
    ProgramIsSteady(own, finalize);
    UntouchedIsEmpty(own, q);
    SmoothLaunch(own, q, Worlds(own, q), 0, n);
    WorldAfterPrefix(own, q, n);
    forall k: nat | k >= LIQUIDITY ensures Mint(k) !in Run(b, front, Untouched(b), Smooth(n)).sent {
      MintsOfItsStep(b, front, Untouched(b), Smooth(n), k);
    }
  }

  lemma PlanUpToLiquidity()
    ensures PlanTotal(MINT_ALLOCATIONS[..LIQUIDITY]) == 657 * NANO
  {
    var p := MINT_ALLOCATIONS;
    assert p[..1][..0] == p[..0] && p[..2][..1] == p[..1] && p[..3][..2] == p[..2] && p[..4][..3] == p[..3];
    assert PlanTotal(p[..1]) == 7 * NANO;
    assert PlanTotal(p[..2]) == 207 * NANO;
    assert PlanTotal(p[..3]) == 507 * NANO;
  }

  lemma HoldsAirdrop(b: AddressBook, own: AddressBook, done: set<Step>)
    requires own.DistinctReceivers() && b.ReceiverOf(LIQUIDITY) == own.ReceiverOf(AIRDROP) && MintTo(AIRDROP) in done
    ensures Get(WorldOf(own, done).balances, b.ReceiverOf(LIQUIDITY)) == AmountOf(AIRDROP)
    ensures MintDecision(b, LIQUIDITY, WorldOf(own, done)) == Refuse
  {
    BalanceIn(own, done, AIRDROP);
  }

  /** There the shared wallet holds the airdrop. */
  lemma AirdropIsThere(b: AddressBook, own: AddressBook, finalize: bool)
    requires own.DistinctReceivers() && own == b.(liquidityHolder := own.liquidityHolder) && SharedHolder(b)
    ensures Place(LIQUIDITY) <= |Program(own, finalize)|
    ensures var w := Before(own, finalize, LIQUIDITY);
      && Get(w.balances, b.airdropHolder) == AmountOf(AIRDROP) && w.totalSupply == 657 * NANO
      && MintDecision(b, LIQUIDITY, w) == Refuse
  {
    var done := DoneBefore(own, finalize, LIQUIDITY);
    DoneIsReady(own, LIQUIDITY, done);
    assert own.ReceiverOf(AIRDROP) == b.airdropHolder == b.ReceiverOf(LIQUIDITY);
    HoldsAirdrop(b, own, done);
    WorldAfterPrefix(own, Program(own, finalize), Place(LIQUIDITY));
    PlanUpToLiquidity();
  }

  lemma FirstLaunchIsRefused(b: AddressBook, finalize: bool) returns (w: World)
    requires b.Valid() && SharedHolder(b)
    ensures var r := FullRun(b, finalize, Untouched(b));
      && r.end == Refused && r.world == w && (forall k: nat :: k >= LIQUIDITY ==> Mint(k) !in r.sent)
    ensures w.totalSupply == 657 * NANO && Get(w.balances, b.airdropHolder) == AmountOf(AIRDROP)
    ensures Stuck(b, LIQUIDITY, w)
  {
    var own := OwnHolder(b);
    var p, n := Program(b, finalize), Place(LIQUIDITY);
    SameUpToLiquidity(b, own, finalize);
    AirdropIsThere(b, own, finalize);
    MintPlace(b, finalize, LIQUIDITY);
    w := Before(own, finalize, LIQUIDITY);
    assert Probe(b, MintTo(LIQUIDITY), w) == Refuse;
    RunIsRefused(b, p, Untouched(b), n, |p|);
  }

  lemma NeverMintedLater(b: AddressBook, later: bool, w: World, fates: seq<Fate>)
    requires SharedHolder(b) && Stuck(b, LIQUIDITY, w) && Calm(b, fates)
    ensures Run(b, Program(b, later), w, fates).end != Done
    ensures Mint(LIQUIDITY) !in Run(b, Program(b, later), w, fates).sent
  {
    assert b.ReceiverOf(AIRDROP) == b.ReceiverOf(LIQUIDITY);
    PartialMintIsRefused(b, later, w, fates, LIQUIDITY);
  }

  /**
   * With the airdrop and the liquidity allocation at one wallet, as the script's defaults have it, an uninterrupted
   * first launch mints four allocations and is refused at the liquidity mint, and no launch after it completes or
   * sends that mint, as long as its reads succeed and nothing arrives late.
   */
  lemma SharedHolderIsRefused(b: AddressBook, finalize: bool, later: bool, fates: seq<Fate>)
    requires b.Valid() && SharedHolder(b) && Calm(b, fates)
    ensures var r := FullRun(b, finalize, Untouched(b));
      && r.end == Refused && r.world.totalSupply == 657 * NANO
      && Get(r.world.balances, b.liquidityHolder) == AmountOf(AIRDROP)
      && (forall k: nat :: k >= LIQUIDITY ==> Mint(k) !in r.sent)
      && Run(b, Program(b, later), r.world, fates).end != Done
      && Mint(LIQUIDITY) !in Run(b, Program(b, later), r.world, fates).sent
  {
    var w := FirstLaunchIsRefused(b, finalize);
    NeverMintedLater(b, later, w, fates);
  }
}
