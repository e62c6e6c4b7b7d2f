/** The life of one proposal: voting, cancelling, finalizing and executing, and the checkers that observe it. */
module ProposalLife {
  import opened Common
  import opened ProposalScan

  const TYPE_FEATURE := 1

  datatype Config = Config(
    proposer: Address, governor: Address, voteRelayer: Address, timelock: Address,
    start: int, end: int, quorumRequired: int, thresholdBps: int, proposalType: int)

  datatype Msg =
    | Vote(voter: Address, support: bool, vp: int)
    | Finalize
    | Execute
    | MarkExecuted
    | Cancel

  datatype Event = Event(sender: Address, at: int, msg: Msg)

  datatype Proposal = Proposal(state: int, forVotes: int, againstVotes: int, voted: set<Address>)

  const FRESH := Proposal(PS_ACTIVE, 0, 0, {})

  predicate Passes(c: Config, forVotes: int, againstVotes: int) {
    var total := forVotes + againstVotes;
    total >= c.quorumRequired && total != 0 && forVotes * 10000 >= c.thresholdBps * total
  }

  predicate Accepted(c: Config, e: Event, p: Proposal) {
    match e.msg
    case Vote(voter, _, vp) =>
      e.sender == c.voteRelayer && p.state == PS_ACTIVE && c.start <= e.at <= c.end && vp > 0 && voter !in p.voted
    case Finalize =>
      var total := p.forVotes + p.againstVotes;
      e.at > c.end && p.state == PS_ACTIVE && (total < c.quorumRequired || total == 0 || 0 <= c.thresholdBps <= 10000)
    case Execute => e.sender == c.governor && p.state == PS_SUCCEEDED && c.proposalType == TYPE_FEATURE
    case MarkExecuted => e.sender == c.timelock && p.state == PS_SUCCEEDED
    case Cancel => e.sender == c.proposer && e.at < c.start && p.state == PS_ACTIVE
  }

  /** One received message; a refused one changes nothing. */
  function Step(c: Config, e: Event, p: Proposal): Proposal {
    if !Accepted(c, e, p) then p
    else match e.msg
      case Vote(voter, support, vp) =>
        var counted := if support then p.(forVotes := p.forVotes + vp) else p.(againstVotes := p.againstVotes + vp);
        counted.(voted := p.voted + {voter})
      case Finalize => p.(state := if Passes(c, p.forVotes, p.againstVotes) then PS_SUCCEEDED else PS_DEFEATED)
      case Execute => p.(state := PS_EXECUTED)
      case MarkExecuted => p.(state := PS_EXECUTED)
      case Cancel => p.(state := PS_CANCELLED)
  }

  function Run(c: Config, events: seq<Event>): Proposal {
    if events == [] then FRESH else Step(c, events[|events| - 1], Run(c, events[..|events| - 1]))
  }

  /** The votes that were accepted, in order. */
  function Ballots(c: Config, events: seq<Event>): seq<Msg> {
    if events == [] then []
    else
      var n := |events| - 1;
      var before := Ballots(c, events[..n]);
      if events[n].msg.Vote? && Accepted(c, events[n], Run(c, events[..n])) then before + [events[n].msg] else before
  }

  function PowerOf(ballots: seq<Msg>, support: bool): int {
    if ballots == [] then 0
    else
      var n := |ballots| - 1;
      PowerOf(ballots[..n], support)
      + (if ballots[n].Vote? && ballots[n].support == support then ballots[n].vp else 0)
  }

  function Voters(ballots: seq<Msg>): set<Address> {
    if ballots == [] then {}
    else
      var n := |ballots| - 1;
      Voters(ballots[..n]) + (if ballots[n].Vote? then {ballots[n].voter} else {})
  }

  /** No voter appears twice, and every ballot is a vote of positive power. */
  predicate OneBallotEach(ballots: seq<Msg>) {
    ballots == [] ||
    var n := |ballots| - 1;
    OneBallotEach(ballots[..n]) && ballots[n].Vote? && ballots[n].vp > 0 && ballots[n].voter !in Voters(ballots[..n])
  }

  /** The tallies are the power of these ballots, cast by voters of their own. */
  ghost predicate Tallied(p: Proposal, ballots: seq<Msg>) {
    && p.forVotes == PowerOf(ballots, true) && p.againstVotes == PowerOf(ballots, false)
    && p.voted == Voters(ballots) && OneBallotEach(ballots)
  }

  lemma VoteIsTallied(c: Config, e: Event, p: Proposal, ballots: seq<Msg>)
    requires e.msg.Vote? && Accepted(c, e, p) && Tallied(p, ballots)
    ensures Tallied(Step(c, e, p), ballots + [e.msg])
  {
    var more := ballots + [e.msg];
    assert more[..|more| - 1] == ballots;
  }

  /** In every run each accepted vote is by a voter of its own, and the tallies are exactly the accepted power. */
  lemma {:induction false} TalliesAreTheBallots(c: Config, events: seq<Event>)
    ensures Tallied(Run(c, events), Ballots(c, events))
  {
    if events == [] {
    } else {
      var n := |events| - 1;
      TalliesAreTheBallots(c, events[..n]);
      var p, e := Run(c, events[..n]), events[n];
      if e.msg.Vote? && Accepted(c, e, p) {
        VoteIsTallied(c, e, p, Ballots(c, events[..n]));
      } else {
        OtherMessagesKeepTallies(c, e, p);
      }
    }
  }

  lemma OtherMessagesKeepTallies(c: Config, e: Event, p: Proposal)
    requires !(e.msg.Vote? && Accepted(c, e, p))
    ensures var q := Step(c, e, p);
      q.forVotes == p.forVotes && q.againstVotes == p.againstVotes && q.voted == p.voted
  {
  }

  /** In every run any two accepted votes have different voters. */
  lemma NobodyVotesTwice(c: Config, events: seq<Event>, i: nat, j: nat)
    requires i < j < |Ballots(c, events)|
    ensures var ballots := Ballots(c, events);
      ballots[i].Vote? && ballots[j].Vote? && ballots[i].voter != ballots[j].voter
  {
    TalliesAreTheBallots(c, events);
    VotersDiffer(Ballots(c, events), i, j);
  }

  lemma {:induction false} VotersDiffer(ballots: seq<Msg>, i: nat, j: nat)
    requires OneBallotEach(ballots) && i < j < |ballots|
    ensures ballots[i].Vote? && ballots[j].Vote? && ballots[i].voter != ballots[j].voter
  {
    var n := |ballots| - 1;
    if j < n {
      VotersDiffer(ballots[..n], i, j);
    } else {
      VoterIsIncluded(ballots[..n], i);
    }
  }

  lemma {:induction false} VoterIsIncluded(ballots: seq<Msg>, i: nat)
    requires OneBallotEach(ballots) && i < |ballots|
    ensures ballots[i].Vote? && ballots[i].voter in Voters(ballots)
  {
    var n := |ballots| - 1;
    if i < n { VoterIsIncluded(ballots[..n], i); }
  }

  predicate Terminal(p: Proposal) { p.state in {PS_DEFEATED, PS_EXECUTED, PS_CANCELLED} }

  /** A cancelled, defeated or executed proposal never changes again, whatever it receives. */
  lemma {:induction false} TerminalIsFinal(c: Config, events: seq<Event>, more: seq<Event>)
    requires Terminal(Run(c, events))
    ensures Run(c, events + more) == Run(c, events)
    decreases |more|
  {
    if more == [] {
      assert events + more == events;
    } else {
      var n := |more| - 1;
      TerminalIsFinal(c, events, more[..n]);
      assert (events + more)[..|events + more| - 1] == events + more[..n];
    }
  }

  /** Receipt times do not go backwards. */
  ghost predicate Ordered(events: seq<Event>) {
    forall i, j :: 0 <= i < j < |events| ==> events[i].at <= events[j].at
  }

  /** What the state of a proposal says about the power that was cast for and against it. */
  ghost predicate StateTellsVerdict(c: Config, p: Proposal, f: int, a: int) {
    && (p.state in {PS_SUCCEEDED, PS_EXECUTED} ==>
          f + a >= c.quorumRequired && f + a > 0 && f * 10000 >= c.thresholdBps * (f + a))
    && (p.state == PS_DEFEATED ==>
          f + a < c.quorumRequired || f + a == 0 || f * 10000 < c.thresholdBps * (f + a))
    && (p.state == PS_CANCELLED ==> f == 0 == a && p.voted == {})
    && p.state in {PS_ACTIVE, PS_SUCCEEDED, PS_DEFEATED, PS_EXECUTED, PS_CANCELLED}
  }

  lemma {:induction false} PowerIsPositive(ballots: seq<Msg>)
    requires OneBallotEach(ballots)
    ensures PowerOf(ballots, true) >= 0 && PowerOf(ballots, false) >= 0
    ensures Voters(ballots) == {} ==> PowerOf(ballots, true) == 0 == PowerOf(ballots, false)
  {
    if ballots != [] { PowerIsPositive(ballots[..|ballots| - 1]); }
  }

  lemma {:induction false} TalliesTellVerdict(c: Config, events: seq<Event>)
    requires Ordered(events)
    ensures var p := Run(c, events); StateTellsVerdict(c, p, p.forVotes, p.againstVotes)
    ensures events != [] && events[|events| - 1].at < c.start ==> Run(c, events).voted == {}
  {
    TalliesAreTheBallots(c, events);
    PowerIsPositive(Ballots(c, events));
    if events == [] {
    } else {
      var n := |events| - 1;
      TalliesTellVerdict(c, events[..n]);
      TalliesAreTheBallots(c, events[..n]);
      PowerIsPositive(Ballots(c, events[..n]));
      if n > 0 { assert events[n - 1].at <= events[n].at; }
    }
  }

  /**
   * In every run: succeeded and executed mean that the power of the accepted votes reaches the quorum, is not zero,
   * and is for the proposal at the threshold; defeated means that one of these fails; a cancelled proposal holds no
   * vote, and no proposal is ever in the queued state.
   */
  lemma VerdictIsExact(c: Config, events: seq<Event>)
    requires Ordered(events)
    ensures var f, a := PowerOf(Ballots(c, events), true), PowerOf(Ballots(c, events), false);
      StateTellsVerdict(c, Run(c, events), f, a)
    ensures events != [] && events[|events| - 1].at < c.start ==> Run(c, events).voted == {}
    ensures Run(c, events).voted == {} ==> Run(c, events).forVotes == 0 == Run(c, events).againstVotes
  {
    TalliesAreTheBallots(c, events);
    TalliesTellVerdict(c, events);
    PowerIsPositive(Ballots(c, events));
  }

  /** A proposal still active after its end has exactly one outcome left, decided by the votes cast in time. */
  lemma {:induction false} OutcomeIsSettledAtTheEnd(c: Config, events: seq<Event>, late: seq<Event>)
    requires Run(c, events).state == PS_ACTIVE && 0 <= c.thresholdBps <= 10000 && c.start <= c.end
    requires forall e <- late :: e.at > c.end
    ensures var p, q := Run(c, events), Run(c, events + late);
      && q.forVotes == p.forVotes && q.againstVotes == p.againstVotes && q.voted == p.voted
      && (q.state == PS_ACTIVE <==> forall e <- late :: !e.msg.Finalize?)
      && var total := p.forVotes + p.againstVotes;
         (q.state != PS_ACTIVE ==>
            (q.state == PS_DEFEATED <==>
               total < c.quorumRequired || total == 0 || p.forVotes * 10000 < c.thresholdBps * total))
    decreases |late|
  {
    if late == [] {
      assert events + late == events;
    } else {
      var n := |late| - 1;
      OutcomeIsSettledAtTheEnd(c, events, late[..n]);
      assert (events + late)[..|events + late| - 1] == events + late[..n];
      assert late == late[..n] + [late[n]] && late[n] in late;
      var before := Run(c, events + late[..n]);
      if before.state != PS_ACTIVE {
        assert exists e <- late :: e.msg.Finalize?;
        NeverActiveAgain(c, late[n], before);
      }
    }
  }

  lemma NeverActiveAgain(c: Config, e: Event, p: Proposal)
    requires p.state != PS_ACTIVE
    ensures var q := Step(c, e, p);
      q.forVotes == p.forVotes && q.againstVotes == p.againstVotes && q.voted == p.voted && q.state != PS_ACTIVE
      && (q.state == PS_DEFEATED <==> p.state == PS_DEFEATED)
  {
  }

  // ----- The outcome, from the messages alone -----

  /** The proposer cancelled before the vote opened. */
  predicate Withdrawn(c: Config, events: seq<Event>) {
    exists e <- events :: e.msg.Cancel? && e.sender == c.proposer && e.at < c.start
  }

  /** Somebody asked for the verdict after the vote had ended. */
  predicate Closed(c: Config, events: seq<Event>) {
    exists e <- events :: e.msg.Finalize? && e.at > c.end
  }

  /** The first relayed vote of each voter inside the window, unless the proposal was withdrawn. */
  function Eligible(c: Config, events: seq<Event>): seq<Msg> {
    if events == [] then []
    else
      var n := |events| - 1;
      var before, e := Eligible(c, events[..n]), events[n];
      if e.msg.Vote? && e.sender == c.voteRelayer && c.start <= e.at <= c.end && e.msg.vp > 0
         && e.msg.voter !in Voters(before) && !Withdrawn(c, events[..n])
      then before + [e.msg] else before
  }

  /** After the vote was closed, the timelock, or the governor for a feature proposal, marked it executed. */
  predicate Carried(c: Config, events: seq<Event>) {
    events != []
    && var n := |events| - 1;
       var e := events[n];
       || Carried(c, events[..n])
       || (Closed(c, events[..n])
           && ((e.msg.MarkExecuted? && e.sender == c.timelock)
               || (e.msg.Execute? && e.sender == c.governor && c.proposalType == TYPE_FEATURE)))
  }

  lemma LastOrBefore(c: Config, events: seq<Event>)
    requires events != []
    ensures var n := |events| - 1;
      var e := events[n];
      && (Withdrawn(c, events)
          <==> Withdrawn(c, events[..n]) || (e.msg.Cancel? && e.sender == c.proposer && e.at < c.start))
      && (Closed(c, events) <==> Closed(c, events[..n]) || (e.msg.Finalize? && e.at > c.end))
  {
    assert events == events[..|events| - 1] + [events[|events| - 1]];
  }

  /** In time order nothing is closed before the end, and nothing is withdrawn after the start. */
  lemma InTime(c: Config, events: seq<Event>)
    requires Ordered(events) && events != [] && c.start <= c.end
    ensures var last := events[|events| - 1];
      last.at <= c.end ==> !Closed(c, events)
  {
    if Closed(c, events) {
      var e :| e in events && e.msg.Finalize? && e.at > c.end;
      var i :| 0 <= i < |events| && events[i] == e;
      assert events[i].at <= events[|events| - 1].at;
    }
  }

  /** What the messages decide, when `f` and `a` are the power of the eligible votes. */
  ghost predicate Decided(c: Config, events: seq<Event>, state: int, f: int, a: int) {
    var total := f + a;
    var counted := !Withdrawn(c, events) && Closed(c, events)
      && (total < c.quorumRequired || total == 0 || 0 <= c.thresholdBps <= 10000);
    var won := total >= c.quorumRequired && total > 0 && f * 10000 >= c.thresholdBps * total;
    && (state == PS_CANCELLED <==> Withdrawn(c, events))
    && (state == PS_ACTIVE <==> !Withdrawn(c, events) && !counted)
    && (state == PS_DEFEATED <==> counted && !won)
    && (state == PS_EXECUTED <==> counted && won && Carried(c, events))
    && (state == PS_SUCCEEDED <==> counted && won && !Carried(c, events))
  }

  lemma CarriedIsClosed(c: Config, events: seq<Event>)
    requires Carried(c, events)
    ensures Closed(c, events)
  {
    if Carried(c, events[..|events| - 1]) { CarriedIsClosed(c, events[..|events| - 1]); }
    LastOrBefore(c, events);
  }

  lemma StepIsDecided(c: Config, init: seq<Event>, e: Event, p: Proposal)
    requires Ordered(init + [e]) && c.start <= c.end && Tallied(p, Eligible(c, init))
    requires Decided(c, init, p.state, p.forVotes, p.againstVotes)
    ensures var q := Step(c, e, p);
      Decided(c, init + [e], q.state, q.forVotes, q.againstVotes) && Tallied(q, Eligible(c, init + [e]))
  {
    var events := init + [e];
    assert events[..|init|] == init;
    LastOrBefore(c, events);
    InTime(c, events);
    PowerIsPositive(Eligible(c, init));
    if Carried(c, init) { CarriedIsClosed(c, init); }
    if e.msg.Vote? && Accepted(c, e, p) {
      VoteIsTallied(c, e, p, Eligible(c, init));
    } else {
      OtherMessagesKeepTallies(c, e, p);
    }
  }

  /**
   * In every run whose messages come in time order, the messages alone decide the outcome: withdrawn by its proposer
   * before the start; otherwise open until somebody closes it after the end; then defeated, or succeeded and executed
   * once carried out, by quorum and threshold over the first vote of each voter inside the window. A threshold out of
   * range leaves it open where it would have mattered.
   */
  lemma {:induction false} MessagesDecideTheOutcome(c: Config, events: seq<Event>)
    requires Ordered(events) && c.start <= c.end
    ensures var votes, p := Eligible(c, events), Run(c, events);
      && Decided(c, events, p.state, PowerOf(votes, true), PowerOf(votes, false))
      && p.voted == Voters(votes) && p.forVotes == PowerOf(votes, true) && p.againstVotes == PowerOf(votes, false)
    ensures Tallied(Run(c, events), Eligible(c, events))
  {
    if events == [] {
    } else {
      var n := |events| - 1;
      MessagesDecideTheOutcome(c, events[..n]);
      assert events == events[..n] + [events[n]];
      StepIsDecided(c, events[..n], events[n], Run(c, events[..n]));
    }
  }

  // ----- The checkers, observing one message -----

  predicate CheckVoteRecorded(forBefore: int, forAfter: int, hasVoted: bool) { hasVoted && forAfter > forBefore }

  predicate CheckDoubleVoteRejected(forBefore: int, forAfter: int, hasVoted: bool) { hasVoted && forAfter == forBefore }

  predicate CheckExpiredVoteRejected(votedBefore: bool, votedAfter: bool, forBefore: int, forAfter: int, now: int,
                                     end: int) {
    var noNewVotes := forAfter == forBefore;
    now >= end && (if votedBefore then votedAfter && noNewVotes else !votedAfter && noNewVotes)
  }

  /** What the three vote checks ask of their readings. */
  lemma ChecksAsk(f0: int, f1: int, voted0: bool, voted1: bool, now: int, end: int)
    ensures CheckVoteRecorded(f0, f1, voted1) <==> voted1 && f1 > f0
    ensures CheckDoubleVoteRejected(f0, f1, voted1) <==> voted1 && f1 == f0
    ensures CheckExpiredVoteRejected(voted0, voted1, f0, f1, now, end) <==> now >= end && voted1 == voted0 && f1 == f0
  {
  }

  /**
   * What each vote check says about a vote message, the clock being read no earlier than the message was
   * handled: recorded exactly when an accepted vote was in favour; not counted twice exactly when the voter
   * had voted, or cast an accepted vote against; refused as expired exactly when the reading has reached the
   * end and the vote was refused.
   */
  lemma VoteChecksIff(c: Config, e: Event, p: Proposal, now: int)
    requires e.msg.Vote? && e.at <= now
    ensures var q := Step(c, e, p);
      var voter := e.msg.voter;
      var counted := e.sender == c.voteRelayer && p.state == PS_ACTIVE && c.start <= e.at <= c.end
                     && e.msg.vp > 0 && voter !in p.voted;
      && (CheckVoteRecorded(p.forVotes, q.forVotes, voter in q.voted) <==> (counted && e.msg.support))
      && (CheckDoubleVoteRejected(p.forVotes, q.forVotes, voter in q.voted)
          <==> (voter in p.voted || (counted && !e.msg.support)))
      && (CheckExpiredVoteRejected(voter in p.voted, voter in q.voted, p.forVotes, q.forVotes, now, c.end)
          <==> (now >= c.end && !counted))
  {
  }

  /**
   * The expiry check calls the window over at its end, while the proposal still takes votes in that second:
   * a vote handled once the end is reached fails the check exactly when it comes at the end itself, by a new
   * voter, with power, on an active proposal.
   */
  lemma ExpiryCheckFailsIff(c: Config, e: Event, p: Proposal, now: int)
    requires e.msg.Vote? && e.sender == c.voteRelayer && c.start <= c.end <= e.at <= now
    ensures var q := Step(c, e, p);
      !CheckExpiredVoteRejected(e.msg.voter in p.voted, e.msg.voter in q.voted, p.forVotes, q.forVotes, now, c.end)
      <==> (e.at == c.end && p.state == PS_ACTIVE && e.msg.voter !in p.voted && e.msg.vp > 0)
  {
    VoteChecksIff(c, e, p, now);
  }

  /** A reachable input for it: the first vote of a proposal, cast at the end itself. */
  lemma EndVoteFailsTheCheck(c: Config, voter: Address)
    requires c.start <= c.end
    ensures var p := Run(c, []);
      var e := Event(c.voteRelayer, c.end, Vote(voter, true, 1));
      Accepted(c, e, p)
      && !CheckExpiredVoteRejected(voter in p.voted, voter in Run(c, [e]).voted, p.forVotes, Run(c, [e]).forVotes,
        c.end, c.end)
  {
    var e := Event(c.voteRelayer, c.end, Vote(voter, true, 1));
    assert [e][..0] == [];
    ExpiryCheckFailsIff(c, e, Run(c, []), c.end);
  }

  /** A first vote against, accepted and recorded, passes the check that a second vote was refused. */
  lemma FirstVoteAgainstLooksRefused(c: Config, voter: Address)
    requires c.start <= c.end
    ensures var p := Run(c, []);
      var e := Event(c.voteRelayer, c.start, Vote(voter, false, 1));
      Accepted(c, e, p) && voter !in p.voted
      && CheckDoubleVoteRejected(p.forVotes, Run(c, [e]).forVotes, voter in Run(c, [e]).voted)
  {
    var e := Event(c.voteRelayer, c.start, Vote(voter, false, 1));
    assert [e][..0] == [];
    VoteChecksIff(c, e, Run(c, []), c.start);
  }
}
