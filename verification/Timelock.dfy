/** The Timelock: queueing, delayed dispatch, re-arming after a bounce, and the checkers that observe it. */
module Timelock {
  import opened Common
  import opened Sums
  import opened QueueDelay
  import ProposalScan
  import ProposalLife

  const TREASURY_SPEND_METHOD := 0x5a1c9010
  const VEST_EMERGENCY_REVOKE_METHOD := 0x5a060002
  const HIGH_VALUE_EXEC_MIN: nat := 100_000_000

  datatype Config = Config(governor: Address, highValueDelayFloorSec: nat)

  /** `argsOp` is the opcode the queued arguments start with. */
  datatype Action = Action(proposalContract: Address, target: Address, op: int, argsOp: int)

  /** `ticket` numbers the accepted queueings of a run; the contract does not store it. */
  datatype Pending = Pending(action: Action, scheduledTime: int, executed: bool, ticket: nat)

  /** A high-value message on its way to its target. */
  datatype Dispatch = Dispatch(id: int, target: Address, ticket: nat)

  /**
   * `performed` counts the dispatches that took effect or were sent without a way back, by proposal id, and `taken`
   * the same by proposal id and ticket; `tickets` is the number of queueings accepted so far.
   */
  datatype State = State(
    pending: map<int, Pending>,
    inflight: seq<Dispatch>,
    performed: map<int, nat>,
    taken: multiset<(int, nat)>,
    tickets: nat)

  datatype Msg =
    | Queue(sender: Address, id: int, action: Action, delay: int)
    | ExecutePending(id: int, attached: nat)
    | CancelQueued(sender: Address, id: int)
    | TargetSucceeds(i: nat)
    | TargetFails(i: nat)

  datatype Event = Event(at: int, msg: Msg)

  const EMPTY := State(map[], [], map[], multiset{}, 0)

  predicate HighValue(op: int) { op == TREASURY_SPEND_METHOD || op == VEST_EMERGENCY_REVOKE_METHOD }

  predicate Admits(c: Config, op: int, delay: int) {
    DelayAdmitted(HighValue(op), delay, Some(c.highValueDelayFloorSec))
  }

  predicate Accepted(c: Config, e: Event, s: State) {
    match e.msg
    case Queue(sender, id, action, delay) => sender == c.governor && id !in s.pending && Admits(c, action.op, delay)
    case ExecutePending(id, attached) =>
      && id in s.pending
      && e.at >= s.pending[id].scheduledTime
      && !s.pending[id].executed
      && (HighValue(s.pending[id].action.op) ==>
            attached >= HIGH_VALUE_EXEC_MIN && s.pending[id].action.argsOp == s.pending[id].action.op)
    case CancelQueued(sender, id) => sender == c.governor && id in s.pending
    case TargetSucceeds(i) => i < |s.inflight|
    case TargetFails(i) => i < |s.inflight|
  }

  function Bump(m: map<int, nat>, id: int): map<int, nat> { m[id := Count(m, id) + 1] }

  function Count(m: map<int, nat>, id: int): nat { if id in m then m[id] else 0 }

  /** A bounce re-arms an entry that is flagged executed and has the bouncing target. */
  function Rearmed(pending: map<int, Pending>, d: Dispatch): map<int, Pending> {
    if d.id in pending && pending[d.id].action.target == d.target && pending[d.id].executed
    then pending[d.id := pending[d.id].(executed := false)]
    else pending
  }

  function Step(c: Config, e: Event, s: State): State {
    if !Accepted(c, e, s) then s
    else match e.msg
      case Queue(_, id, action, delay) =>
        s.(pending := s.pending[id := Pending(action, e.at + delay, false, s.tickets)], tickets := s.tickets + 1)
      case ExecutePending(id, _) =>
        var entry := s.pending[id];
        if HighValue(entry.action.op) then
          s.(pending := s.pending[id := entry.(executed := true)],
             inflight := s.inflight + [Dispatch(id, entry.action.target, entry.ticket)])
        else
          Perform(id, entry.ticket, s.(pending := s.pending - {id}))
      case CancelQueued(_, id) => s.(pending := s.pending - {id})
      case TargetSucceeds(i) =>
        Perform(s.inflight[i].id, s.inflight[i].ticket, s.(inflight := RemoveAt(s.inflight, i)))
      case TargetFails(i) =>
        s.(inflight := RemoveAt(s.inflight, i), pending := Rearmed(s.pending, s.inflight[i]))
  }

  function Perform(id: int, ticket: nat, s: State): State {
    s.(performed := Bump(s.performed, id), taken := s.taken + multiset{(id, ticket)})
  }

  function Run(c: Config, events: seq<Event>): State {
    if events == [] then EMPTY else Step(c, events[|events| - 1], Run(c, events[..|events| - 1]))
  }

  // ----- No more often than queued -----

  predicate QueuesNow(c: Config, e: Event, s: State, id: int) {
    e.msg.Queue? && e.msg.id == id && Accepted(c, e, s)
  }

  /** How often `id` was queued with success. */
  function Queued(c: Config, events: seq<Event>, id: int): nat {
    if events == [] then 0
    else
      var n := |events| - 1;
      Queued(c, events[..n], id) + (if QueuesNow(c, events[n], Run(c, events[..n]), id) then 1 else 0)
  }

  function OfId(id: int): Dispatch -> nat { (d: Dispatch) => if d.id == id then 1 else 0 }

  function OnTheWay(ds: seq<Dispatch>, id: int): nat { SumBy(OfId(id), ds) }

  function Armed(s: State, id: int): nat { if id in s.pending && !s.pending[id].executed then 1 else 0 }

  /** What one message adds to performed, on its way and armed together: at most one, and only by queueing. */
  lemma OnlyQueueingAdds(c: Config, e: Event, s: State, id: int)
    ensures var q := Step(c, e, s);
      Count(q.performed, id) + OnTheWay(q.inflight, id) + Armed(q, id)
      <= Count(s.performed, id) + OnTheWay(s.inflight, id) + Armed(s, id) + (if QueuesNow(c, e, s, id) then 1 else 0)
  {
    if Accepted(c, e, s) {
      match e.msg
      case Queue(_, _, _, _) =>
      case ExecutePending(k, _) =>
        SumByAppend(OfId(id), s.inflight, Dispatch(k, s.pending[k].action.target, s.pending[k].ticket));
      case CancelQueued(_, _) =>
      case TargetSucceeds(i) => SumByRemoveAt(OfId(id), s.inflight, i);
      case TargetFails(i) => SumByRemoveAt(OfId(id), s.inflight, i);
    }
  }

  /**
   * Over every run, with any senders, bounces and re-arms: an id is performed at most as often as it was queued,
   * counting what is still armed or on its way.
   */
  lemma {:induction false} PerformedAtMostAsQueued(c: Config, events: seq<Event>, id: int)
    ensures var s := Run(c, events);
      Count(s.performed, id) + OnTheWay(s.inflight, id) + Armed(s, id) <= Queued(c, events, id)
  {
    if events == [] {
    } else {
      var n := |events| - 1;
      PerformedAtMostAsQueued(c, events[..n], id);
      OnlyQueueingAdds(c, events[n], Run(c, events[..n]), id);
    }
  }

  // ----- Once per queueing -----

  function OfTicket(id: int, ticket: nat): Dispatch -> nat {
    (d: Dispatch) => if d.id == id && d.ticket == ticket then 1 else 0
  }

  function TicketOnTheWay(s: State, id: int, ticket: nat): nat { SumBy(OfTicket(id, ticket), s.inflight) }

  /** The queueing has been performed, or is on its way. */
  function Used(s: State, id: int, ticket: nat): nat { s.taken[(id, ticket)] + TicketOnTheWay(s, id, ticket) }

  predicate Holds(s: State, id: int, ticket: nat) { id in s.pending && s.pending[id].ticket == ticket }

  /** Performances of one queueing: done, on their way, and one more if its entry is armed. */
  function Chances(s: State, id: int, ticket: nat): nat {
    Used(s, id, ticket) + (if Holds(s, id, ticket) && !s.pending[id].executed then 1 else 0)
  }

  /** The bounce re-arms the entry of `id`. */
  predicate Rearms(s: State, i: nat, id: int) {
    && i < |s.inflight| && s.inflight[i].id == id && id in s.pending
    && s.pending[id].executed && s.pending[id].action.target == s.inflight[i].target
  }

  /** The entry of this queueing is re-armed by the bounce of a dispatch that belongs to another queueing. */
  predicate RearmsForeign(e: Event, s: State, id: int, ticket: nat) {
    e.msg.TargetFails? && Rearms(s, e.msg.i, id) && Holds(s, id, ticket) && s.inflight[e.msg.i].ticket != ticket
  }

  /** Tickets are numbered in order of queueing, and a dispatch has the target of its own queueing. */
  ghost predicate Numbered(s: State) {
    && (forall id :: id in s.pending ==> s.pending[id].ticket < s.tickets)
    && (forall d :: d in s.inflight ==> d.ticket < s.tickets && FromOrBefore(s, d))
    && (forall p :: p in s.taken ==> p.1 < s.tickets)
  }

  predicate FromOrBefore(s: State, d: Dispatch) {
    d.id in s.pending ==>
      && d.ticket <= s.pending[d.id].ticket
      && (d.ticket == s.pending[d.id].ticket ==> d.target == s.pending[d.id].action.target)
  }

  /** An executed entry was used. */
  ghost predicate Spent(s: State, id: int) {
    id in s.pending && s.pending[id].executed ==> Used(s, id, s.pending[id].ticket) > 0
  }

  lemma PerformStaysNumbered(s: State, id: int, ticket: nat)
    requires Numbered(s) && ticket < s.tickets
    ensures Numbered(Perform(id, ticket, s))
  {
    forall p | p in s.taken + multiset{(id, ticket)} ensures p.1 < s.tickets {
      assert p in s.taken || p == (id, ticket);
    }
  }

  lemma StepStaysNumbered(c: Config, e: Event, s: State)
    requires Numbered(s)
    ensures Numbered(Step(c, e, s))
  {
    if Accepted(c, e, s) {
      match e.msg
      case Queue(_, _, _, _) =>
      case ExecutePending(id, _) =>
        if !HighValue(s.pending[id].action.op) {
          PerformStaysNumbered(s.(pending := s.pending - {id}), id, s.pending[id].ticket);
        }
      case CancelQueued(_, _) =>
      case TargetSucceeds(i) =>
        assert s.inflight[i] in s.inflight;
        PerformStaysNumbered(s.(inflight := RemoveAt(s.inflight, i)), s.inflight[i].id, s.inflight[i].ticket);
      case TargetFails(_) =>
    }
  }

  lemma UsedAfter(c: Config, e: Event, s: State, id: int, ticket: nat)
    ensures var q := Step(c, e, s);
      && (!e.msg.TargetFails? ==> Used(q, id, ticket) >= Used(s, id, ticket))
      && (e.msg.Queue? || e.msg.CancelQueued? ==> Used(q, id, ticket) == Used(s, id, ticket))
      && (e.msg.ExecutePending? && Accepted(c, e, s) ==>
            Used(q, id, ticket) == Used(s, id, ticket)
              + if e.msg.id == id && s.pending[id].ticket == ticket then 1 else 0)
      && (e.msg.TargetSucceeds? ==> Used(q, id, ticket) == Used(s, id, ticket))
      && (e.msg.TargetFails? && e.msg.i < |s.inflight| ==>
            Used(q, id, ticket) == Used(s, id, ticket) - OfTicket(id, ticket)(s.inflight[e.msg.i]))
  {
    if Accepted(c, e, s) {
      match e.msg
      case Queue(_, _, _, _) =>
      case ExecutePending(k, _) =>
        SumByAppend(OfTicket(id, ticket), s.inflight, Dispatch(k, s.pending[k].action.target, s.pending[k].ticket));
      case CancelQueued(_, _) =>
      case TargetSucceeds(i) => SumByRemoveAt(OfTicket(id, ticket), s.inflight, i);
      case TargetFails(i) => SumByRemoveAt(OfTicket(id, ticket), s.inflight, i);
    }
  }

  lemma StepStaysSpent(c: Config, e: Event, s: State, id: int)
    requires Numbered(s) && Spent(s, id)
    ensures Spent(Step(c, e, s), id)
  {
    assert e.msg.TargetFails? && e.msg.i < |s.inflight| ==> s.inflight[e.msg.i] in s.inflight;
    if id in s.pending { UsedAfter(c, e, s, id, s.pending[id].ticket); }
  }

  lemma {:induction false} RunIsNumbered(c: Config, events: seq<Event>, id: int)
    ensures Numbered(Run(c, events)) && Spent(Run(c, events), id)
  {
    if events == [] {
    } else {
      var n := |events| - 1;
      RunIsNumbered(c, events[..n], id);
      StepStaysNumbered(c, events[n], Run(c, events[..n]));
      StepStaysSpent(c, events[n], Run(c, events[..n]), id);
    }
  }

  lemma UnissuedIsUnused(s: State, id: int, ticket: nat)
    requires Numbered(s) && ticket >= s.tickets
    ensures Chances(s, id, ticket) == 0
  {
    NoneOnTheWay(s.inflight, id, ticket);
    assert (id, ticket) !in s.taken;
  }

  lemma {:induction false} NoneOnTheWay(ds: seq<Dispatch>, id: int, ticket: nat)
    requires forall d :: d in ds && d.id == id ==> d.ticket != ticket
    ensures SumBy(OfTicket(id, ticket), ds) == 0
    decreases |ds|
  {
    if ds != [] {
      assert ds[|ds| - 1] in ds;
      NoneOnTheWay(ds[..|ds| - 1], id, ticket);
    }
  }

  /** One message raises the chances of a queueing above one exactly when it is the bounce of another one's dispatch. */
  lemma StepAddsIff(c: Config, e: Event, s: State, id: int, ticket: nat)
    requires Numbered(s) && Spent(s, id) && Chances(s, id, ticket) <= 1
    ensures Chances(Step(c, e, s), id, ticket) > 1 <==> RearmsForeign(e, s, id, ticket)
  {
    UsedAfter(c, e, s, id, ticket);
    if QueuesNow(c, e, s, id) && ticket == s.tickets { UnissuedIsUnused(s, id, ticket); }
  }

  /** At some point of the run the queueing has been or can be performed more than once. */
  predicate EverTwice(c: Config, events: seq<Event>, id: int, ticket: nat) {
    Chances(Run(c, events), id, ticket) > 1 || (events != [] && EverTwice(c, events[..|events| - 1], id, ticket))
  }

  predicate EverForeign(c: Config, events: seq<Event>, id: int, ticket: nat) {
    events != []
    && (RearmsForeign(events[|events| - 1], Run(c, events[..|events| - 1]), id, ticket)
        || EverForeign(c, events[..|events| - 1], id, ticket))
  }

  /**
   * Over every run, one accepted queueing is performed at most once, counting what is armed or on its way, exactly
   * when no bounce of another queueing's dispatch re-armed its entry.
   */
  lemma {:induction false} OncePerQueueingIff(c: Config, events: seq<Event>, id: int, ticket: nat)
    ensures EverTwice(c, events, id, ticket) <==> EverForeign(c, events, id, ticket)
  {
    if events == [] {
    } else {
      var n := |events| - 1;
      var s := Run(c, events[..n]);
      OncePerQueueingIff(c, events[..n], id, ticket);
      RunIsNumbered(c, events[..n], id);
      if !EverTwice(c, events[..n], id, ticket) {
        StepAddsIff(c, events[n], s, id, ticket);
      }
    }
  }

  /**
   * A bounce re-arms an entry that has been used, or whose own dispatch is still on its way, exactly when the bouncing
   * dispatch belongs to an earlier queueing of the same id and target.
   */
  lemma RearmIsUnsafeIff(c: Config, events: seq<Event>, at: int, i: nat, id: int)
    requires Rearms(Run(c, events), i, id)
    requires !EverTwice(c, events, id, Run(c, events).pending[id].ticket)
    ensures var s := Run(c, events);
      Used(Step(c, Event(at, TargetFails(i)), s), id, s.pending[id].ticket) > 0
      <==> s.inflight[i].ticket < s.pending[id].ticket
  {
    var s, e := Run(c, events), Event(at, TargetFails(i));
    RunIsNumbered(c, events, id);
    UsedAfter(c, e, s, id, s.pending[id].ticket);
    assert s.inflight[i] in s.inflight;
  }

  /** No accepted cancel of the id found a dispatch of it on its way. */
  predicate CancelsOnlySettled(c: Config, events: seq<Event>, id: int) {
    events == []
    || (CancelsOnlySettled(c, events[..|events| - 1], id)
        && var s := Run(c, events[..|events| - 1]);
           (CancelsNow(c, events[|events| - 1], s, id) ==> OnTheWay(s.inflight, id) == 0))
  }

  /** Every dispatch of the id that is on its way belongs to the standing entry. */
  ghost predicate Owned(s: State, id: int) {
    forall d :: d in s.inflight && d.id == id ==> Holds(s, id, d.ticket) && HighValue(s.pending[id].action.op)
  }

  lemma {:induction false} NothingOfId(ds: seq<Dispatch>, id: int)
    requires OnTheWay(ds, id) == 0
    ensures forall d :: d in ds ==> d.id != id
    decreases |ds|
  {
    if ds != [] {
      assert ds == ds[..|ds| - 1] + [ds[|ds| - 1]];
      NothingOfId(ds[..|ds| - 1], id);
    }
  }

  lemma StepStaysOwned(c: Config, e: Event, s: State, id: int)
    requires Owned(s, id) && (CancelsNow(c, e, s, id) ==> OnTheWay(s.inflight, id) == 0)
    ensures Owned(Step(c, e, s), id)
  {
    if CancelsNow(c, e, s, id) { NothingOfId(s.inflight, id); }
    if Accepted(c, e, s) && (e.msg.TargetSucceeds? || e.msg.TargetFails?) {
      var i := e.msg.i;
      assert forall d :: d in RemoveAt(s.inflight, i) ==> d in s.inflight;
    }
  }

  lemma OwnedIsNeverForeign(e: Event, s: State, id: int, ticket: nat)
    requires Owned(s, id)
    ensures !RearmsForeign(e, s, id, ticket)
  {
    assert e.msg.TargetFails? && e.msg.i < |s.inflight| ==> s.inflight[e.msg.i] in s.inflight;
  }

  /**
   * As long as no accepted cancel hits an id while its dispatch is on its way, every accepted queueing of the id is
   * performed at most once, counting what is armed or on its way.
   */
  lemma {:induction false} OncePerQueueing(c: Config, events: seq<Event>, id: int, ticket: nat)
    requires CancelsOnlySettled(c, events, id)
    ensures Owned(Run(c, events), id) && !EverTwice(c, events, id, ticket)
  {
    if events == [] {
    } else {
      var n := |events| - 1;
      var s := Run(c, events[..n]);
      OncePerQueueing(c, events[..n], id, ticket);
      StepStaysOwned(c, events[n], s, id);
      RunIsNumbered(c, events[..n], id);
      OwnedIsNeverForeign(events[n], s, id, ticket);
      StepAddsIff(c, events[n], s, id, ticket);
    }
  }

  // ----- When an id can be performed again -----

  predicate CancelsNow(c: Config, e: Event, s: State, id: int) {
    e.msg.CancelQueued? && e.msg.id == id && Accepted(c, e, s)
  }

  /** An accepted execution of an ordinary action, whose entry is deleted at once. */
  predicate RunsOrdinary(c: Config, e: Event, s: State, id: int) {
    e.msg.ExecutePending? && e.msg.id == id && Accepted(c, e, s) && !HighValue(s.pending[id].action.op)
  }

  /** How often the entry of `id` was removed: by an accepted cancel or an ordinary execution. */
  function Removed(c: Config, events: seq<Event>, id: int): nat {
    if events == [] then 0
    else
      var n := |events| - 1;
      var e, s := events[n], Run(c, events[..n]);
      Removed(c, events[..n], id) + (if CancelsNow(c, e, s, id) || RunsOrdinary(c, e, s, id) then 1 else 0)
  }

  function Standing(s: State, id: int): nat { if id in s.pending then 1 else 0 }

  lemma StepBalances(c: Config, e: Event, s: State, id: int)
    ensures Standing(Step(c, e, s), id) + (if CancelsNow(c, e, s, id) || RunsOrdinary(c, e, s, id) then 1 else 0)
      == Standing(s, id) + (if QueuesNow(c, e, s, id) then 1 else 0)
  {
  }

  /**
   * In every run each queueing of an id is accounted for: it was cancelled, ran as an ordinary action, or still
   * stands.
   */
  lemma {:induction false} QueueingsBalance(c: Config, events: seq<Event>, id: int)
    ensures Queued(c, events, id) == Removed(c, events, id) + Standing(Run(c, events), id)
  {
    if events == [] {
    } else {
      var n := |events| - 1;
      QueueingsBalance(c, events[..n], id);
      StepBalances(c, events[n], Run(c, events[..n]), id);
    }
  }

  /**
   * Bounces and re-arms never add a performance: over every run, an id is performed at most once more than its
   * entry was cancelled or ran as an ordinary action, and while its entry is armed or its message on its way,
   * not even that often.
   */
  lemma PerformedAgainOnlyAfterRemoval(c: Config, events: seq<Event>, id: int)
    ensures var s := Run(c, events);
      Count(s.performed, id) + OnTheWay(s.inflight, id) + Armed(s, id) <= Removed(c, events, id) + Standing(s, id)
    ensures Removed(c, events, id) == 0 ==> Count(Run(c, events).performed, id) <= 1
  {
    PerformedAtMostAsQueued(c, events, id);
    QueueingsBalance(c, events, id);
  }

  lemma RunOne(c: Config, events: seq<Event>, e: Event)
    ensures Run(c, events + [e]) == Step(c, e, Run(c, events))
  {
    assert (events + [e])[..|events|] == events;
  }

  /** An ordinary action that ran can be queued again under its id, and runs again. */
  lemma OrdinaryActionRunsTwice(c: Config, id: int, action: Action)
    requires !HighValue(action.op)
    ensures var queue, run := Event(0, Queue(c.governor, id, action, 0)), Event(0, ExecutePending(id, 0));
      Count(Run(c, [queue, run, queue, run]).performed, id) == 2
  {
    var queue, run := Event(0, Queue(c.governor, id, action, 0)), Event(0, ExecutePending(id, 0));
    RunOne(c, [], queue);
    RunOne(c, [queue], run);
    RunOne(c, [queue, run], queue);
    RunOne(c, [queue, run, queue], run);
    assert [] + [queue] == [queue] && [queue] + [run] == [queue, run];
    assert [queue, run] + [queue] == [queue, run, queue] && [queue, run, queue] + [run] == [queue, run, queue, run];
    assert Run(c, [queue, run]).pending == map[];
  }

  /** The earliest time a high-value action queued at `at` may run. */
  function Due(c: Config, at: int): int { at + c.highValueDelayFloorSec + 1 }

  function QueueAt(c: Config, at: int, id: int, action: Action): Event {
    Event(at, Queue(c.governor, id, action, c.highValueDelayFloorSec + 1))
  }

  function RunAt(at: int, id: int): Event { Event(at, ExecutePending(id, HIGH_VALUE_EXEC_MIN)) }

  lemma QueueAndRun(c: Config, s: State, id: int, action: Action, at: int)
    requires HighValue(action.op) && action.argsOp == action.op && id !in s.pending
    ensures Step(c, RunAt(Due(c, at), id), Step(c, QueueAt(c, at, id, action), s))
      == s.(pending := s.pending[id := Pending(action, Due(c, at), true, s.tickets)],
            inflight := s.inflight + [Dispatch(id, action.target, s.tickets)], tickets := s.tickets + 1)
  {
    var queued := Step(c, QueueAt(c, at, id, action), s);
    assert queued
      == s.(pending := s.pending[id := Pending(action, Due(c, at), false, s.tickets)], tickets := s.tickets + 1);
  }

  lemma RunThree(c: Config, events: seq<Event>, x: Event, y: Event, z: Event)
    ensures Run(c, events + [x, y, z]) == Step(c, z, Step(c, y, Step(c, x, Run(c, events))))
  {
    RunOne(c, events, x);
    RunOne(c, events + [x], y);
    RunOne(c, events + [x] + [y], z);
    assert events + [x, y, z] == events + [x] + [y] + [z];
  }

  /** A high-value action that took effect can be cancelled away, queued again and performed again. */
  lemma CancelledActionRunsTwice(c: Config, id: int, action: Action)
    requires HighValue(action.op) && action.argsOp == action.op
    ensures var queue, run := QueueAt(c, 0, id, action), RunAt(Due(c, 0), id);
      var done, cancel := Event(0, TargetSucceeds(0)), Event(0, CancelQueued(c.governor, id));
      Count(Run(c, [queue, run, done] + [cancel] + [queue, run, done]).performed, id) == 2
  {
    var queue, run := QueueAt(c, 0, id, action), RunAt(Due(c, 0), id);
    var done, cancel := Event(0, TargetSucceeds(0)), Event(0, CancelQueued(c.governor, id));
    var first := [queue, run, done];
    assert [] + first == first;
    RunThree(c, [], queue, run, done);
    QueueAndRun(c, EMPTY, id, action, 0);
    RunOne(c, first, cancel);
    var cleared := Run(c, first + [cancel]);
    assert cleared.pending == map[] && cleared.inflight == [] && Count(cleared.performed, id) == 1;
    RunThree(c, first + [cancel], queue, run, done);
    QueueAndRun(c, cleared, id, action, 0);
  }

  /** A cancel while the first dispatch is on its way; its bounce comes after the second one has left. */
  function EarlierBounce(c: Config, id: int, a: Action, b: Action): seq<Event> {
    var due := Due(c, 0);
    var later := Due(c, due);
    [QueueAt(c, 0, id, a), RunAt(due, id), Event(due, CancelQueued(c.governor, id))]
    + [QueueAt(c, due, id, b), RunAt(later, id), Event(later, TargetFails(0))]
    + [RunAt(later, id), Event(later, TargetSucceeds(0)), Event(later, TargetSucceeds(0))]
  }

  lemma CancelledOnItsWay(c: Config, id: int, a: Action)
    requires HighValue(a.op) && a.argsOp == a.op
    ensures var due := Due(c, 0);
      Run(c, [QueueAt(c, 0, id, a), RunAt(due, id), Event(due, CancelQueued(c.governor, id))])
        == State(map[], [Dispatch(id, a.target, 0)], map[], multiset{}, 1)
  {
    var due := Due(c, 0);
    var cancel := Event(due, CancelQueued(c.governor, id));
    var first := [QueueAt(c, 0, id, a), RunAt(due, id), cancel];
    RunThree(c, [], first[0], first[1], cancel);
    assert [] + first == first;
    QueueAndRun(c, EMPTY, id, a, 0);
    var sent := Step(c, first[1], Step(c, first[0], EMPTY));
    assert sent.pending - {id} == map[] && sent.inflight == [Dispatch(id, a.target, 0)];
  }

  lemma BouncedIntoTheNext(c: Config, s: State, id: int, b: Action, at: int)
    requires HighValue(b.op) && b.argsOp == b.op && s == State(map[], [Dispatch(id, b.target, 0)], map[], multiset{}, 1)
    ensures var later := Due(c, at);
      Step(c, Event(later, TargetFails(0)), Step(c, RunAt(later, id), Step(c, QueueAt(c, at, id, b), s)))
        == State(map[id := Pending(b, later, false, 1)], [Dispatch(id, b.target, 1)], map[], multiset{}, 2)
  {
    QueueAndRun(c, s, id, b, at);
    var sent := Step(c, RunAt(Due(c, at), id), Step(c, QueueAt(c, at, id, b), s));
    assert RemoveAt(sent.inflight, 0) == [Dispatch(id, b.target, 1)];
    assert sent.pending == map[id := Pending(b, Due(c, at), true, 1)];
  }

  lemma RunAgain(c: Config, s: State, id: int, b: Action, later: int)
    requires HighValue(b.op) && b.argsOp == b.op
    requires s == State(map[id := Pending(b, later, false, 1)], [Dispatch(id, b.target, 1)], map[], multiset{}, 2)
    ensures var done := Event(later, TargetSucceeds(0));
      var end := Step(c, done, Step(c, done, Step(c, RunAt(later, id), s)));
      end.taken == multiset{(id, 1), (id, 1)} && end.inflight == [] && Count(end.performed, id) == 2
  {
    var done := Event(later, TargetSucceeds(0));
    var sent := Step(c, RunAt(later, id), s);
    assert sent.inflight == [Dispatch(id, b.target, 1), Dispatch(id, b.target, 1)];
    var one := Step(c, done, sent);
    assert RemoveAt(sent.inflight, 0) == [Dispatch(id, b.target, 1)];
    assert RemoveAt(one.inflight, 0) == [];
  }

  /**
   * An input on which one queueing is performed twice and another one never: queue, run, cancel, queue again for the
   * same target, run; the first dispatch bounces and re-arms the second entry, whose own dispatch is still on its way;
   * run again, and both succeed.
   */
  lemma EarlierBounceRunsTwice(c: Config, id: int, a: Action, b: Action)
    requires HighValue(a.op) && a.argsOp == a.op && HighValue(b.op) && b.argsOp == b.op && a.target == b.target
    ensures var s := Run(c, EarlierBounce(c, id, a, b));
      s.taken[(id, 0)] == 0 && s.taken[(id, 1)] == 2 && s.inflight == [] && Count(s.performed, id) == 2
  {
    var due := Due(c, 0);
    var later := Due(c, due);
    var first := [QueueAt(c, 0, id, a), RunAt(due, id), Event(due, CancelQueued(c.governor, id))];
    var second := [QueueAt(c, due, id, b), RunAt(later, id), Event(later, TargetFails(0))];
    CancelledOnItsWay(c, id, a);
    RunThree(c, first, second[0], second[1], second[2]);
    BouncedIntoTheNext(c, Run(c, first), id, b, due);
    RunThree(c, first + second, RunAt(later, id), Event(later, TargetSucceeds(0)), Event(later, TargetSucceeds(0)));
    RunAgain(c, Run(c, first + second), id, b, later);
  }

  // ----- Never before its time, never without the governor -----

  /** `e` is the governor queueing exactly this entry, with a delay the gate admits. */
  predicate QueuesEntry(c: Config, e: Event, id: int, p: Pending) {
    && e.msg.Queue? && e.msg.sender == c.governor && e.msg.id == id && e.msg.action == p.action
    && Admits(c, p.action.op, e.msg.delay) && p.scheduledTime == e.at + e.msg.delay
  }

  predicate CancelsEntry(c: Config, e: Event, id: int) {
    e.msg.CancelQueued? && e.msg.sender == c.governor && e.msg.id == id
  }

  /** The entry was queued by the event at `j` and not cancelled since. */
  ghost predicate StandsSince(c: Config, events: seq<Event>, id: int, p: Pending, j: int) {
    0 <= j < |events| && QueuesEntry(c, events[j], id, p)
    && forall k :: j < k < |events| ==> !CancelsEntry(c, events[k], id)
  }

  ghost predicate Stands(c: Config, events: seq<Event>, id: int, p: Pending) {
    exists j :: StandsSince(c, events, id, p, j)
  }

  lemma StandsLonger(c: Config, events: seq<Event>, e: Event, id: int, p: Pending, q: Pending)
    requires Stands(c, events, id, p) && !CancelsEntry(c, e, id)
    requires q.action == p.action && q.scheduledTime == p.scheduledTime
    ensures Stands(c, events + [e], id, q)
  {
    var j :| StandsSince(c, events, id, p, j);
    assert StandsSince(c, events + [e], id, q, j);
  }

  /** Every entry of every reachable state was queued by the governor, with an admitted delay, and still stands. */
  lemma {:induction false} PendingWasQueued(c: Config, events: seq<Event>, id: int)
    requires id in Run(c, events).pending
    ensures Stands(c, events, id, Run(c, events).pending[id])
  {
    var n := |events| - 1;
    var e, s := events[n], Run(c, events[..n]);
    assert events == events[..n] + [e];
    var entry := Run(c, events).pending[id];
    if e.msg.Queue? && e.msg.id == id && Accepted(c, e, s) {
      assert StandsSince(c, events, id, entry, n);
    } else {
      PendingWasQueued(c, events[..n], id);
      StandsLonger(c, events[..n], e, id, s.pending[id], entry);
    }
  }

  /**
   * Whatever is dispatched, in any run, was queued by the governor under that id, with exactly that target and
   * method and a delay its method admits, was not cancelled in between, and its delay has passed.
   */
  lemma DispatchWasQueuedInTime(c: Config, events: seq<Event>, e: Event)
    requires e.msg.ExecutePending? && Accepted(c, e, Run(c, events))
    ensures exists j :: StandsSince(c, events, e.msg.id, Run(c, events).pending[e.msg.id], j)
                        && events[j].at + events[j].msg.delay <= e.at
  {
    PendingWasQueued(c, events, e.msg.id);
  }

  /** A high-value action never leaves in the second it was queued, whatever delay was asked for. */
  lemma HighValueWaits(c: Config, events: seq<Event>, e: Event)
    requires e.msg.ExecutePending? && Accepted(c, e, Run(c, events))
    requires HighValue(Run(c, events).pending[e.msg.id].action.op)
    ensures exists j :: StandsSince(c, events, e.msg.id, Run(c, events).pending[e.msg.id], j)
                        && events[j].at < e.at && events[j].at + c.highValueDelayFloorSec <= e.at
  {
    DispatchWasQueuedInTime(c, events, e);
  }

  /**
   * The gate of the queue: the governor alone, a free id, and for treasury spends and emergency revokes a delay of at
   * least the floor and one second; for anything else no delay, or one of at least a day.
   */
  lemma QueueAcceptedIff(c: Config, e: Event, s: State)
    requires e.msg.Queue?
    ensures var op, delay := e.msg.action.op, e.msg.delay;
      Step(c, e, s) != s <==>
        && e.msg.sender == c.governor && e.msg.id !in s.pending
        && if op == TREASURY_SPEND_METHOD || op == VEST_EMERGENCY_REVOKE_METHOD
           then delay >= 1 && delay >= c.highValueDelayFloorSec
           else delay == 0 || delay >= 86400
  {
  }

  /** What an accepted execution has behind it and leaves, by the opcode of the action. */
  ghost predicate ExecutedAs(c: Config, events: seq<Event>, e: Event, p: Pending, s: State, q: State)
    requires e.msg.ExecutePending?
  {
    var id, op := e.msg.id, p.action.op;
    if op == TREASURY_SPEND_METHOD || op == VEST_EMERGENCY_REVOKE_METHOD then
      && e.msg.attached >= 100_000_000 && p.action.argsOp == op
      && (exists j :: StandsSince(c, events, id, p, j)
                      && events[j].at + 1 <= e.at && events[j].at + c.highValueDelayFloorSec <= e.at)
      && q.pending == s.pending[id := p.(executed := true)]
      && q.inflight == s.inflight + [Dispatch(id, p.action.target, p.ticket)] && q.performed == s.performed
    else
      && (exists j :: StandsSince(c, events, id, p, j) && (events[j].msg.delay == 0 || events[j].msg.delay >= 86400)
                      && events[j].at + events[j].msg.delay <= e.at)
      && q.pending == s.pending - {id} && q.inflight == s.inflight
      && Count(q.performed, id) == Count(s.performed, id) + 1
  }

  /**
   * In every run, an accepted execution of a treasury spend or an emergency revoke has waited for the floor and at
   * least a second, brought the bounce budget and arguments of its own method, and leaves its entry flagged and its
   * message on its way; any other one was queued without delay or for at least a day, and leaves no entry.
   */
  lemma ExecutionByMethod(c: Config, events: seq<Event>, e: Event)
    requires e.msg.ExecutePending? && Accepted(c, e, Run(c, events))
    ensures var s := Run(c, events);
      ExecutedAs(c, events, e, s.pending[e.msg.id], s, Step(c, e, s))
  {
    DispatchWasQueuedInTime(c, events, e);
    var s := Run(c, events);
    var p := s.pending[e.msg.id];
    var j :| StandsSince(c, events, e.msg.id, p, j) && events[j].at + events[j].msg.delay <= e.at;
    assert QueuesEntry(c, events[j], e.msg.id, p);
  }

  /** A due and unexecuted entry can always be executed, by anybody who attaches the budget that its method demands. */
  lemma DueEntryRuns(c: Config, e: Event, s: State)
    requires e.msg.ExecutePending? && e.msg.id in s.pending && !s.pending[e.msg.id].executed
    requires e.at >= s.pending[e.msg.id].scheduledTime
    requires var a := s.pending[e.msg.id].action;
      a.op == TREASURY_SPEND_METHOD || a.op == VEST_EMERGENCY_REVOKE_METHOD ==>
        a.argsOp == a.op && e.msg.attached >= 100_000_000
    ensures Accepted(c, e, s) && Step(c, e, s) != s
  {
    if HighValue(s.pending[e.msg.id].action.op) {
      assert Step(c, e, s).pending[e.msg.id].executed;
    } else {
      assert e.msg.id !in Step(c, e, s).pending;
    }
  }

  /**
   * An entry leaves only by the governor's cancel, or by running as an ordinary action; otherwise its content stays.
   */
  lemma EntryLeavesIff(c: Config, e: Event, s: State, id: int)
    requires id in s.pending
    ensures var p, q := s.pending[id], Step(c, e, s);
      && (id !in q.pending <==>
            || (e.msg.CancelQueued? && e.msg.id == id && e.msg.sender == c.governor)
            || (e.msg.ExecutePending? && e.msg.id == id && e.at >= p.scheduledTime && !p.executed
                && p.action.op != TREASURY_SPEND_METHOD && p.action.op != VEST_EMERGENCY_REVOKE_METHOD))
      && (id in q.pending ==> q.pending[id].(executed := p.executed) == p)
  {
  }

  /** A failed high-value dispatch leaves the Timelock as it was before: the approved action can be tried again. */
  lemma FailureUndoesTheDispatch(c: Config, e: Event, s: State, later: int)
    requires e.msg.ExecutePending? && Accepted(c, e, s) && HighValue(s.pending[e.msg.id].action.op)
    ensures Step(c, Event(later, TargetFails(|s.inflight|)), Step(c, e, s)) == s
  {
    var sent := Step(c, e, s);
    assert RemoveAt(sent.inflight, |s.inflight|) == s.inflight;
    assert Rearmed(sent.pending, sent.inflight[|s.inflight|]) == s.pending;
  }

  // ----- The checkers -----

  function PendingOf(s: State, id: int): Option<Pending> { if id in s.pending then Some(s.pending[id]) else None }

  predicate PendingAbsentForProposal(pending: Option<Pending>, proposalAddr: Address) {
    pending.None? || pending.value.action.proposalContract != proposalAddr
  }

  /** A proposal nobody queued is absent under every id, even where another proposal occupies its id. */
  lemma NeverQueuedIsAbsent(c: Config, events: seq<Event>, id: int, proposalAddr: Address)
    requires forall e <- events :: e.msg.Queue? && e.msg.id == id ==> e.msg.action.proposalContract != proposalAddr
    ensures PendingAbsentForProposal(PendingOf(Run(c, events), id), proposalAddr)
  {
    if id in Run(c, events).pending {
      PendingWasQueued(c, events, id);
      var j :| StandsSince(c, events, id, Run(c, events).pending[id], j);
      assert events[j] in events;
    }
  }

  predicate CheckQueueExecute(stateAfter: int, pendingCleared: bool) {
    stateAfter == ProposalScan.PS_EXECUTED && pendingCleared
  }

  predicate CheckEarlyExecuteRejected(pendingStillPresent: bool, stateAfter: int, now: int, scheduled: int) {
    now < scheduled && pendingStillPresent && stateAfter != ProposalScan.PS_EXECUTED
  }

  predicate Cleared(pending: Option<Pending>) { pending.None? || pending.value.executed }

  /** The mark that an accepted execution sends to its proposal. */
  function Marked(pc: ProposalLife.Config, e: Event, accepted: bool, p: ProposalLife.Proposal): ProposalLife.Proposal {
    if accepted then ProposalLife.Step(pc, ProposalLife.Event(pc.timelock, e.at, ProposalLife.MarkExecuted), p) else p
  }

  /**
   * The execution check, on any attempt to execute a standing, unexecuted entry: before a bounce it passes exactly
   * when the attempt was accepted and the proposal had succeeded (or was already executed); once the dispatch of a
   * high-value action has failed it never passes, though the proposal says executed.
   */
  lemma QueueExecuteCheckIff(c: Config, pc: ProposalLife.Config, e: Event, s: State, p: ProposalLife.Proposal,
                             later: int)
    requires e.msg.ExecutePending? && e.msg.id in s.pending && !s.pending[e.msg.id].executed
    ensures var accepted := Accepted(c, e, s);
      var proposal := Marked(pc, e, accepted, p);
      var after := Step(c, e, s);
      var succeeded := p.state in {ProposalScan.PS_SUCCEEDED, ProposalScan.PS_EXECUTED};
      && (CheckQueueExecute(proposal.state, Cleared(PendingOf(after, e.msg.id))) <==> (accepted && succeeded))
      && (accepted && HighValue(s.pending[e.msg.id].action.op) ==>
            var failed := Step(c, Event(later, TargetFails(|s.inflight|)), after);
            !CheckQueueExecute(proposal.state, Cleared(PendingOf(failed, e.msg.id))))
  {
    if Accepted(c, e, s) && HighValue(s.pending[e.msg.id].action.op) {
      FailureUndoesTheDispatch(c, e, s, later);
    }
  }

  /**
   * The early-execution check reads the clock before it sends. On an attempt handled no earlier than that reading it
   * passes exactly when the reading was early, the proposal did not get executed, and the entry is still there: the
   * attempt was refused, or a high-value action was dispatched, whose entry stays, for a proposal that cannot be
   * marked executed.
   */
  lemma EarlyExecuteCheckIff(c: Config, pc: ProposalLife.Config, e: Event, s: State, p: ProposalLife.Proposal, now: int)
    requires e.msg.ExecutePending? && e.msg.id in s.pending && now <= e.at
    ensures var entry, accepted := s.pending[e.msg.id], Accepted(c, e, s);
      CheckEarlyExecuteRejected(PendingOf(Step(c, e, s), e.msg.id).Some?, Marked(pc, e, accepted, p).state, now,
        entry.scheduledTime)
      <==> (now < entry.scheduledTime && p.state != ProposalScan.PS_EXECUTED
            && (!accepted || (HighValue(entry.action.op) && p.state != ProposalScan.PS_SUCCEEDED)))
  {
  }

  /**
   * What the check is for: handled before its time an attempt is refused, and then the check passes unless the
   * proposal was executed before.
   */
  lemma EarlyAttemptIsRefused(c: Config, pc: ProposalLife.Config, e: Event, s: State, p: ProposalLife.Proposal,
                              now: int)
    requires e.msg.ExecutePending? && e.msg.id in s.pending && now <= e.at < s.pending[e.msg.id].scheduledTime
    ensures !Accepted(c, e, s) && Step(c, e, s) == s
    ensures CheckEarlyExecuteRejected(true, Marked(pc, e, false, p).state, now, s.pending[e.msg.id].scheduledTime)
      <==> p.state != ProposalScan.PS_EXECUTED
  {
  }

  /** A race the check misses: read before the scheduled time, handled at it, accepted, and passed all the same. */
  lemma EarlyCheckMissesARace(c: Config, pc: ProposalLife.Config, action: Action, id: int)
    requires HighValue(action.op) && action.argsOp == action.op
    ensures var s := State(map[id := Pending(action, 10, false, 0)], [], map[], multiset{}, 1);
      var e := Event(10, ExecutePending(id, HIGH_VALUE_EXEC_MIN));
      Accepted(c, e, s)
      && CheckEarlyExecuteRejected(PendingOf(Step(c, e, s), id).Some?, Marked(pc, e, true, ProposalLife.FRESH).state,
        9, 10)
  {
    var s := State(map[id := Pending(action, 10, false, 0)], [], map[], multiset{}, 1);
    var e := Event(10, ExecutePending(id, HIGH_VALUE_EXEC_MIN));
    EarlyExecuteCheckIff(c, pc, e, s, ProposalLife.FRESH, 9);
  }

  /** A delay repaired by the scenarios is never refused by the gate, for any non-negative configured delay. */
  lemma RepairedDelayIsQueued(c: Config, s: State, at: int, id: int, action: Action, configured: nat)
    requires id !in s.pending
    ensures var delay := Repaired(HighValue(action.op), configured, Some(c.highValueDelayFloorSec));
      var e := Event(at, Queue(c.governor, id, action, delay));
      Accepted(c, e, s) && Step(c, e, s).pending[id] == Pending(action, at + delay, false, s.tickets)
  {
    RepairIsAdmitted(HighValue(action.op), configured, Some(c.highValueDelayFloorSec));
  }
}
