/** Choosing a proposal to act on: scans from the latest id downwards. */
module ProposalScan {
  import opened Common

  const PS_ACTIVE := 0
  const PS_SUCCEEDED := 1
  const PS_DEFEATED := 2
  const PS_QUEUED := 3
  const PS_EXECUTED := 4
  const PS_CANCELLED := 5

  const PROPOSAL_SCAN_DEPTH := 10
  const MIN_VOTE_WINDOW_REMAINING_SEC := 30

  /** What the getters of a proposal contract answer. */
  datatype View = View(addr: Address, state: int, proposalType: int, endTime: int, voters: set<Address>)

  /** The governor's proposals by id; the address getter may answer nothing for an id. */
  type Snapshot = seq<Option<View>>

  datatype Want = Votable | Reusable | Executable

  datatype UsableProposal = UsableProposal(id: int, addr: Address, state: int)

  datatype ProposalMatch = ProposalMatch(id: int, addr: Address, state: int, proposalType: int)

  predicate IsProposalUsable(want: Want, state: int, endTimeUnix: int, nowUnix: int, minWindowRemainingSec: int) {
    if state == PS_ACTIVE then
      want == Executable || nowUnix + minWindowRemainingSec < endTimeUnix
    else if state == PS_SUCCEEDED then want == Reusable || want == Executable
    else state == PS_EXECUTED && want == Executable
  }

  function Lowest(count: nat, depth: int): int { if count > depth then count - depth else 0 }

  function MinWindow(want: Want, given: Option<int>): int {
    if given.Some? then given.value else if want == Votable then MIN_VOTE_WINDOW_REMAINING_SEC else 0
  }

  predicate UsableAt(chain: Snapshot, id: int, want: Want, nowUnix: int, minWindow: int) {
    0 <= id < |chain| && chain[id].Some?
    && IsProposalUsable(want, chain[id].value.state, chain[id].value.endTime, nowUnix, minWindow)
  }

  /** The ids within the scan depth that are usable. */
  function UsableIds(chain: Snapshot, want: Want, depth: int, nowUnix: int, minWindow: int): set<int> {
    set id | Lowest(|chain|, depth) <= id < |chain| && UsableAt(chain, id, want, nowUnix, minWindow)
  }

  /** `id` is the greatest of `ids`, and there is none exactly when `ids` is empty. */
  ghost predicate IsGreatest(id: Option<int>, ids: set<int>) {
    match id
    case None => ids == {}
    case Some(n) => n in ids && forall i <- ids :: i <= n
  }

  method ResolveUsableProposal(chain: Snapshot, want: Want, nowUnix: int, given: Option<int>,
                               depth: int := PROPOSAL_SCAN_DEPTH)
    returns (r: Option<UsableProposal>)
    ensures IsGreatest(if r.Some? then Some(r.value.id) else None,
                       UsableIds(chain, want, depth, nowUnix, MinWindow(want, given)))
    ensures r.Some? ==> var p := r.value;
      0 <= p.id < |chain| && chain[p.id].Some? && p.addr == chain[p.id].value.addr && p.state == chain[p.id].value.state
  {
    var count := |chain|;
    if count <= 0 { return None; }
    var minWindow := MinWindow(want, given);
    var lowest := Lowest(count, depth);
    var id := count - 1;
    while id >= lowest
      invariant -1 <= id < count
      invariant forall i :: id < i < count && lowest <= i ==> !UsableAt(chain, i, want, nowUnix, minWindow)
      decreases id
    {
      if chain[id].Some? {
        var state := chain[id].value.state;
        // The window is fetched for active proposals only.
        var endTime := if state == PS_ACTIVE then chain[id].value.endTime else 0;
        if IsProposalUsable(want, state, endTime, nowUnix, minWindow) {
          return Some(UsableProposal(id, chain[id].value.addr, state));
        }
      }
      id := id - 1;
    }
    return None;
  }

  datatype Filter = Filter(proposalType: Option<int>, states: Option<set<int>>, votedBy: Option<Address>,
    minWindow: Option<int>)

  predicate Matches(v: View, f: Filter, nowUnix: int) {
    && (f.states.Some? ==> v.state in f.states.value)
    && (f.proposalType.Some? ==> v.proposalType == f.proposalType.value)
    && (f.minWindow.Some? && v.state == PS_ACTIVE ==> nowUnix + f.minWindow.value < v.endTime)
    && (f.votedBy.Some? ==> f.votedBy.value in v.voters)
  }

  predicate MatchesAt(chain: Snapshot, id: int, f: Filter, nowUnix: int) {
    0 <= id < |chain| && chain[id].Some? && Matches(chain[id].value, f, nowUnix)
  }

  function MatchingIds(chain: Snapshot, f: Filter, depth: int, nowUnix: int): set<int> {
    set id | Lowest(|chain|, depth) <= id < |chain| && MatchesAt(chain, id, f, nowUnix)
  }

  method ResolveProposalMatching(chain: Snapshot, f: Filter, nowUnix: int, depth: int := PROPOSAL_SCAN_DEPTH)
    returns (r: Option<ProposalMatch>)
    ensures IsGreatest(if r.Some? then Some(r.value.id) else None, MatchingIds(chain, f, depth, nowUnix))
    ensures r.Some? ==> var p := r.value;
      && 0 <= p.id < |chain| && chain[p.id].Some?
      && p == ProposalMatch(p.id, chain[p.id].value.addr, chain[p.id].value.state, chain[p.id].value.proposalType)
  {
    var count := |chain|;
    if count <= 0 { return None; }
    var lowest := Lowest(count, depth);
    var id := count - 1;
    while id >= lowest
      invariant -1 <= id < count
      invariant forall i :: id < i < count && lowest <= i ==> !MatchesAt(chain, i, f, nowUnix)
      decreases id
    {
      var here := id;
      id := id - 1;
      if chain[here].None? { continue; }
      var v := chain[here].value;
      if f.states.Some? && v.state !in f.states.value { continue; }
      if f.proposalType.Some? && v.proposalType != f.proposalType.value { continue; }
      if f.minWindow.Some? && v.state == PS_ACTIVE {
        if nowUnix + f.minWindow.value >= v.endTime { continue; }
      }
      if f.votedBy.Some? && f.votedBy.value !in v.voters { continue; }
      return Some(ProposalMatch(here, v.addr, v.state, v.proposalType));
    }
    return None;
  }

  /**
   * What each scan takes, of the last `depth` ids: for voting, an active proposal with the guard left of its window, by
   * default 30 seconds; for reuse, that without a guard, or a succeeded one; for execution, any active, succeeded or
   * executed one.
   */
  lemma WantTakes(chain: Snapshot, want: Want, depth: nat, now: int, given: Option<int>, id: int)
    ensures id in UsableIds(chain, want, depth, now, MinWindow(want, given)) <==>
      && 0 <= id < |chain| && id >= |chain| - depth && chain[id].Some?
      && var p := chain[id].value;
         var guard := if given.Some? then given.value else if want == Votable then 30 else 0;
         match want
         case Votable => p.state == PS_ACTIVE && now + guard < p.endTime
         case Reusable => (p.state == PS_ACTIVE && now + guard < p.endTime) || p.state == PS_SUCCEEDED
         case Executable => p.state == PS_ACTIVE || p.state == PS_SUCCEEDED || p.state == PS_EXECUTED
  {
    var least := MinWindow(want, given);
    assert id in UsableIds(chain, want, depth, now, least)
      <==> Lowest(|chain|, depth) <= id < |chain| && UsableAt(chain, id, want, now, least);
    if 0 <= id < |chain| && chain[id].Some? {
      UsableByWant(chain[id].value, want, now, given);
    }
  }

  lemma UsableByWant(p: View, want: Want, now: int, given: Option<int>)
    ensures IsProposalUsable(want, p.state, p.endTime, now, MinWindow(want, given)) <==>
      var guard := if given.Some? then given.value else if want == Votable then 30 else 0;
      match want
      case Votable => p.state == PS_ACTIVE && now + guard < p.endTime
      case Reusable => (p.state == PS_ACTIVE && now + guard < p.endTime) || p.state == PS_SUCCEEDED
      case Executable => p.state == PS_ACTIVE || p.state == PS_SUCCEEDED || p.state == PS_EXECUTED
  {
  }

  lemma GreatestOfSubset(small: Option<int>, smaller: set<int>, large: Option<int>, larger: set<int>)
    requires IsGreatest(small, smaller) && IsGreatest(large, larger) && smaller <= larger
    ensures small.Some? ==> large.Some? && small.value <= large.value
  {
  }

  /**
   * On one snapshot, at one time and with the default guards, what is votable is reusable and what is
   * reusable is executable; so each scan finds an id at least as late as the one before it.
   */
  lemma ScansAreOrdered(chain: Snapshot, depth: int, now: int, given: Option<int>,
                        votable: Option<int>, reusable: Option<int>, executable: Option<int>)
    requires IsGreatest(votable, UsableIds(chain, Votable, depth, now, MinWindow(Votable, given)))
    requires IsGreatest(reusable, UsableIds(chain, Reusable, depth, now, MinWindow(Reusable, given)))
    requires IsGreatest(executable, UsableIds(chain, Executable, depth, now, MinWindow(Executable, given)))
    ensures votable.Some? ==> reusable.Some? && votable.value <= reusable.value
    ensures reusable.Some? ==> executable.Some? && reusable.value <= executable.value
  {
    var v := UsableIds(chain, Votable, depth, now, MinWindow(Votable, given));
    var r := UsableIds(chain, Reusable, depth, now, MinWindow(Reusable, given));
    var e := UsableIds(chain, Executable, depth, now, MinWindow(Executable, given));
    GreatestOfSubset(votable, v, reusable, r);
    GreatestOfSubset(reusable, r, executable, e);
  }

  /** The greatest of a set of ids is unique. */
  lemma GreatestIsUnique(a: Option<int>, b: Option<int>, ids: set<int>)
    requires IsGreatest(a, ids) && IsGreatest(b, ids)
    ensures a == b
  {
  }

  /** The votable scan is the matching scan for active proposals under the same window guard. */
  lemma VotableScanIsMatching(chain: Snapshot, depth: int, now: int, given: Option<int>, votable: Option<int>,
                              matching: Option<int>)
    requires IsGreatest(votable, UsableIds(chain, Votable, depth, now, MinWindow(Votable, given)))
    requires var f := Filter(None, Some({PS_ACTIVE}), None, Some(MinWindow(Votable, given)));
      IsGreatest(matching, MatchingIds(chain, f, depth, now))
    ensures votable == matching
  {
    var f := Filter(None, Some({PS_ACTIVE}), None, Some(MinWindow(Votable, given)));
    var ids := UsableIds(chain, Votable, depth, now, MinWindow(Votable, given));
    assert forall id :: MatchesAt(chain, id, f, now) <==> UsableAt(chain, id, Votable, now, MinWindow(Votable, given));
    assert MatchingIds(chain, f, depth, now) == ids;
    GreatestIsUnique(votable, matching, ids);
  }
}
