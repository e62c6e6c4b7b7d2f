/** Voting power that stays locked past the end of a vote, as the scenarios and the staking master compute it. */
module LockedPower {
  import opened Common

  const MIN_TIER: nat := 0
  const MAX_TIER: nat := 3
  const STAKE_AMOUNT_HAPPY: nat := 5 * 1_000_000_000
  const LOCKED_STAKE_POLL_ATTEMPTS: nat := 12
  const LOCKED_VP_END_MARGIN_SEC: nat := 600

  datatype StakeRecord = StakeRecord(amount: nat, tier: int, unlockTime: int)

  /** Tier multipliers times 100, read from the chain. */
  type Table = map<int, nat>

  datatype PowerError = MissingMultiplier(tier: int) | InsufficientBurn | StakeDidNotSurface

  predicate Counts(record: StakeRecord, end: int) {
    record.amount > 0 && record.unlockTime > end
  }

  function Power(amount: nat, multiplier: nat): nat { amount * multiplier / 100 }

  /** Sum over the counting records; the first counting record of an unknown tier is an error. */
  function LockedBeyond(records: seq<StakeRecord>, table: Table, end: int): Result<nat, PowerError> {
    if records == [] then Ok(0)
    else
      var last := records[|records| - 1];
      match LockedBeyond(records[..|records| - 1], table, end)
      case Err(e) => Err(e)
      case Ok(sum) =>
        if !Counts(last, end) then Ok(sum)
        else if last.tier !in table then Err(MissingMultiplier(last.tier))
        else Ok(sum + Power(last.amount, table[last.tier]))
  }

  method ComputeLockedBeyondVp(records: seq<StakeRecord>, table: Table, voteEndTime: int)
    returns (r: Result<nat, PowerError>)
    ensures r == LockedBeyond(records, table, voteEndTime)
  {
    var sum := 0;
    for i := 0 to |records|
      invariant LockedBeyond(records[..i], table, voteEndTime) == Ok(sum)
    {
      var record := records[i];
      assert records[..i + 1][..i] == records[..i];
      if record.amount > 0 && record.unlockTime > voteEndTime {
        if record.tier !in table {
          FirstFailureDecides(records[..i + 1], records[i + 1..], table, voteEndTime);
          assert records == records[..i + 1] + records[i + 1..];
          return Err(MissingMultiplier(record.tier));
        }
        sum := sum + record.amount * table[record.tier] / 100;
      }
    }
    assert records[..|records|] == records;
    return Ok(sum);
  }

  lemma {:induction false} FirstFailureDecides(first: seq<StakeRecord>, second: seq<StakeRecord>, table: Table,
                                               end: int)
    requires LockedBeyond(first, table, end).Err?
    ensures LockedBeyond(first + second, table, end) == LockedBeyond(first, table, end)
    decreases |second|
  {
    if second == [] {
      assert first + second == first;
    } else {
      var n := |second| - 1;
      FirstFailureDecides(first, second[..n], table, end);
      assert (first + second)[..|first + second| - 1] == first + second[..n];
    }
  }

  /** One record counts when it holds something past the end, for amount times multiplier to the whole hundred below. */
  lemma PowerOfOne(record: StakeRecord, table: Table, end: int)
    requires record.tier in table
    ensures var p := LockedBeyond([record], table, end);
      && p.Ok?
      && (record.amount == 0 || record.unlockTime <= end ==> p.value == 0)
      && (record.unlockTime > end ==> 100 * p.value <= record.amount * table[record.tier] < 100 * (p.value + 1))
  {
    assert [record][..0] == [];
    assert LockedBeyond([], table, end) == Ok(0);
  }

  /** Power is additive over record lists, and fails when either part fails. */
  lemma {:induction false} PowerIsAdditive(first: seq<StakeRecord>, second: seq<StakeRecord>, table: Table, end: int)
    ensures var a, b, both := LockedBeyond(first, table, end), LockedBeyond(second, table, end),
      LockedBeyond(first + second, table, end);
      && (both.Ok? <==> a.Ok? && b.Ok?)
      && (both.Ok? ==> both.value == a.value + b.value)
      && (a.Err? ==> both == a)
      && (a.Ok? && b.Err? ==> both == b)
    decreases |second|
  {
    if second == [] {
      assert first + second == first;
    } else {
      var n := |second| - 1;
      PowerIsAdditive(first, second[..n], table, end);
      assert (first + second)[..|first + second| - 1] == first + second[..n];
    }
  }

  /** The computation fails exactly when a counting record has a tier outside the table. */
  lemma {:induction false} PowerFailsIff(records: seq<StakeRecord>, table: Table, end: int)
    ensures LockedBeyond(records, table, end).Err? <==> exists r <- records :: Counts(r, end) && r.tier !in table
  {
    if records == [] {
    } else {
      var n := |records| - 1;
      PowerFailsIff(records[..n], table, end);
      assert records == records[..n] + [records[n]];
    }
  }

  /** A hundred times the power each record could give, counting or not. */
  function Weight(records: seq<StakeRecord>, table: Table): nat {
    if records == [] then 0
    else
      var last := records[|records| - 1];
      Weight(records[..|records| - 1], table) + (if last.tier in table then last.amount * table[last.tier] else 0)
  }

  lemma {:induction false} PowerAtMostWeight(records: seq<StakeRecord>, table: Table, end: int)
    requires LockedBeyond(records, table, end).Ok?
    ensures 100 * LockedBeyond(records, table, end).value <= Weight(records, table)
  {
    if records == [] {
    } else {
      PowerAtMostWeight(records[..|records| - 1], table, end);
    }
  }

  /** A later end never has more power, and is never less defined. */
  lemma {:induction false} PowerIsAntitone(records: seq<StakeRecord>, table: Table, earlier: int, later: int)
    requires earlier <= later && LockedBeyond(records, table, earlier).Ok?
    ensures LockedBeyond(records, table, later).Ok?
    ensures LockedBeyond(records, table, later).value <= LockedBeyond(records, table, earlier).value
  {
    if records == [] {
    } else {
      PowerIsAntitone(records[..|records| - 1], table, earlier, later);
    }
  }

  // ----- The staking master's own sum -----

  /** The stakes of one owner by tier, as the staking master keeps them: each under its own tier. */
  type Stakes = map<int, StakeRecord>

  ghost predicate WellKept(stakes: Stakes) {
    forall t <- stakes :: stakes[t].tier == t
  }

  /** Sum over the tiers below `to`. */
  function OnChainBelow(stakes: Stakes, table: Table, end: int, to: nat): nat
    requires forall t :: MIN_TIER <= t < to ==> t in table
    requires WellKept(stakes)
  {
    if to == MIN_TIER then 0
    else
      var sum := OnChainBelow(stakes, table, end, to - 1);
      var tier := to - 1;
      if tier in stakes && stakes[tier].amount > 0 && stakes[tier].unlockTime > end
      then sum + Power(stakes[tier].amount, table[stakes[tier].tier])
      else sum
  }

  function OnChainLockedBeyond(stakes: Stakes, table: Table, end: int): nat
    requires forall t :: MIN_TIER <= t <= MAX_TIER ==> t in table
    requires WellKept(stakes)
  {
    OnChainBelow(stakes, table, end, MAX_TIER + 1)
  }

  function RecordsBelow(stakes: Stakes, to: nat): seq<StakeRecord> {
    if to == MIN_TIER then []
    else RecordsBelow(stakes, to - 1) + (if to - 1 in stakes then [stakes[to - 1]] else [])
  }

  function ActorRecords(stakes: Stakes): seq<StakeRecord> { RecordsBelow(stakes, MAX_TIER + 1) }

  method ReadActorStakeRecords(stakes: Stakes) returns (records: seq<StakeRecord>)
    ensures records == ActorRecords(stakes)
  {
    records := [];
    var tier := MIN_TIER;
    while tier <= MAX_TIER
      invariant MIN_TIER <= tier <= MAX_TIER + 1
      invariant records == RecordsBelow(stakes, tier)
    {
      if tier in stakes {
        records := records + [stakes[tier]];
      }
      tier := tier + 1;
    }
  }

  lemma {:induction false} MirrorsBelow(stakes: Stakes, table: Table, end: int, to: nat)
    requires forall t :: MIN_TIER <= t < to ==> t in table
    requires WellKept(stakes)
    ensures LockedBeyond(RecordsBelow(stakes, to), table, end) == Ok(OnChainBelow(stakes, table, end, to))
  {
    if to > MIN_TIER {
      MirrorsBelow(stakes, table, end, to - 1);
      var before, records := RecordsBelow(stakes, to - 1), RecordsBelow(stakes, to);
      if to - 1 in stakes {
        assert records[..|records| - 1] == before;
      } else {
        assert records == before;
      }
    }
  }

  /** Over the full tier table the scenarios' sum never fails and equals the staking master's. */
  lemma MirrorsStakingMaster(stakes: Stakes, table: Table, end: int)
    requires forall t :: MIN_TIER <= t <= MAX_TIER ==> t in table
    requires WellKept(stakes)
    ensures LockedBeyond(ActorRecords(stakes), table, end) == Ok(OnChainLockedBeyond(stakes, table, end))
  {
    MirrorsBelow(stakes, table, end, MAX_TIER + 1);
  }

  // ----- Ensuring power before proposing -----

  /** First positive power among the polls, the first failure, or the time-out. */
  function Polled(polls: seq<seq<StakeRecord>>, table: Table, end: int): Result<nat, PowerError> {
    if polls == [] then Err(StakeDidNotSurface)
    else
      var vp := LockedBeyond(polls[0], table, end);
      if vp.Err? || vp.value > 0 then vp else Polled(polls[1..], table, end)
  }

  /** `existing` is the first reading, `polls` the readings after the stake was sent. */
  method EnsureLockedVotingPower(existing: seq<StakeRecord>, balance: nat, polls: seq<seq<StakeRecord>>, table: Table,
                                 voteEndTime: int)
    returns (r: Result<nat, PowerError>, staked: bool)
    requires |polls| == LOCKED_STAKE_POLL_ATTEMPTS
    ensures var vp := LockedBeyond(existing, table, voteEndTime);
      && (vp.Err? || vp.value > 0 ==> r == vp && !staked)
      && (vp.Ok? && vp.value == 0 ==> staked == (balance >= STAKE_AMOUNT_HAPPY))
      && (vp.Ok? && vp.value == 0 && !staked ==> r == Err(InsufficientBurn))
      && (staked ==> r == Polled(polls, table, voteEndTime))
    ensures r.Ok? ==> r.value > 0
  {
    staked := false;
    r := ComputeLockedBeyondVp(existing, table, voteEndTime);
    if r.Err? || r.value > 0 { return; }
    if balance < STAKE_AMOUNT_HAPPY {
      return Err(InsufficientBurn), false;
    }
    staked := true;
    for attempt := 0 to LOCKED_STAKE_POLL_ATTEMPTS
      invariant Polled(polls[attempt..], table, voteEndTime) == Polled(polls, table, voteEndTime)
    {
      r := ComputeLockedBeyondVp(polls[attempt], table, voteEndTime);
      assert polls[attempt..][1..] == polls[attempt + 1..];
      if r.Err? || r.value > 0 { return; }
    }
    assert polls[LOCKED_STAKE_POLL_ATTEMPTS..] == [];
    return Err(StakeDidNotSurface), true;
  }

  /** A successful poll read a record list with exactly that much power. */
  lemma {:induction false} PolledWasRead(polls: seq<seq<StakeRecord>>, table: Table, end: int)
    requires Polled(polls, table, end).Ok?
    ensures Polled(polls, table, end).value > 0
    ensures exists records <- polls :: LockedBeyond(records, table, end) == Polled(polls, table, end)
  {
    if polls == [] {
    } else if LockedBeyond(polls[0], table, end).Ok? && LockedBeyond(polls[0], table, end).value == 0 {
      PolledWasRead(polls[1..], table, end);
    } else {
      assert polls[0] in polls;
    }
  }

  /** A list has power exactly when one counting record gives some on its own. */
  lemma {:induction false} PowerIsPositiveIff(records: seq<StakeRecord>, table: Table, end: int)
    requires LockedBeyond(records, table, end).Ok?
    ensures LockedBeyond(records, table, end).value > 0
      <==> exists r <- records :: Counts(r, end) && r.tier in table && r.amount * table[r.tier] >= 100
  {
    if records == [] {
    } else {
      var n := |records| - 1;
      var last := records[n];
      PowerIsPositiveIff(records[..n], table, end);
      assert records == records[..n] + [last];
      assert last.tier in table ==>
        (Power(last.amount, table[last.tier]) > 0 <==> last.amount * table[last.tier] >= 100);
    }
  }

  /**
   * With every tier known, polling succeeds exactly when some poll shows power: a stake that surfaces in time is
   * found.
   */
  lemma {:induction false} PollingSucceedsIff(polls: seq<seq<StakeRecord>>, table: Table, end: int)
    requires forall records <- polls :: LockedBeyond(records, table, end).Ok?
    ensures Polled(polls, table, end).Ok? <==> exists records <- polls :: LockedBeyond(records, table, end).value > 0
  {
    if polls != [] {
      assert polls == [polls[0]] + polls[1..];
      PollingSucceedsIff(polls[1..], table, end);
      assert polls[0] in polls;
      assert forall records <- polls :: records == polls[0] || records in polls[1..];
      assert forall records <- polls[1..] :: records in polls;
    }
  }

  /**
   * The stake the helper sends, locked past the end in a tier of any positive multiplier, is power enough once it
   * shows.
   */
  lemma SurfacedStakeIsEnough(polls: seq<seq<StakeRecord>>, table: Table, end: int, records: seq<StakeRecord>,
                              stake: StakeRecord)
    requires forall rs <- polls :: LockedBeyond(rs, table, end).Ok?
    requires records in polls && stake in records && stake.amount >= STAKE_AMOUNT_HAPPY && stake.unlockTime > end
    requires stake.tier in table && table[stake.tier] > 0
    ensures Polled(polls, table, end).Ok?
  {
    assert stake.amount * table[stake.tier] >= stake.amount;
    PowerIsPositiveIff(records, table, end);
    PollingSucceedsIff(polls, table, end);
  }

  // ----- What the power is for -----

  function EstimateFreshVoteEndTime(now: int, cancelLag: nat, period: nat): int {
    now + cancelLag + period + LOCKED_VP_END_MARGIN_SEC
  }

  /** Window end the governor gives a proposal created at `created`. */
  function VoteEndTime(created: int, cancelLag: nat, period: nat): int { created + cancelLag + period }

  /** Effective power of a relayed vote: the claim, capped by the locked power; zero is refused. */
  function RelayedVote(stakes: Stakes, table: Table, claimedVp: int, end: int): (vp: Option<int>)
    requires forall t :: MIN_TIER <= t <= MAX_TIER ==> t in table
    requires WellKept(stakes)
    ensures var onChain := OnChainLockedBeyond(stakes, table, end);
      && (vp.None? <==> claimedVp <= 0 || onChain == 0)
      && (vp.Some? ==> 0 < vp.value <= claimedVp && vp.value <= onChain)
      && (vp.Some? ==> vp.value == claimedVp || vp.value == onChain)
  {
    var onChainVp := OnChainLockedBeyond(stakes, table, end);
    var vpEff := if claimedVp < onChainVp then claimedVp else onChainVp;
    if claimedVp > 0 && vpEff > 0 then Some(vpEff) else None
  }

  /**
   * Power found under the estimated end is still there at the real end of a proposal created within the
   * margin: the vote relay counts any positive claim up to it in full.
   */
  lemma EnsuredPowerVotes(stakes: Stakes, table: Table, now: int, created: int, cancelLag: nat, period: nat,
                          claimedVp: int)
    requires forall t :: MIN_TIER <= t <= MAX_TIER ==> t in table
    requires WellKept(stakes) && created <= now + LOCKED_VP_END_MARGIN_SEC
    ensures var found := LockedBeyond(ActorRecords(stakes), table, EstimateFreshVoteEndTime(now, cancelLag, period));
      && found.Ok?
      && (0 < claimedVp <= found.value ==>
            RelayedVote(stakes, table, claimedVp, VoteEndTime(created, cancelLag, period)) == Some(claimedVp))
    ensures EstimateFreshVoteEndTime(now, cancelLag, period) == now + cancelLag + period + 600
    ensures VoteEndTime(created, cancelLag, period) == created + cancelLag + period
  {
    var actual, estimate := VoteEndTime(created, cancelLag, period), EstimateFreshVoteEndTime(now, cancelLag, period);
    MirrorsStakingMaster(stakes, table, actual);
    MirrorsStakingMaster(stakes, table, estimate);
    PowerIsAntitone(ActorRecords(stakes), table, actual, estimate);
  }
}
