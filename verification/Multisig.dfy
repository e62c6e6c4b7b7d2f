/**
 * Acting as a multisig: local signer wallets matched with the on-chain signer list, and a sender that proposes an
 * order, collects approvals and counts the orders it saw executed.
 */
module Multisig {
  import opened Common

  datatype Signer = Signer(index: nat, wallet: Address)

  /** `position` counts the local signer slots. */
  datatype MapError = NotAnOnChainSigner(position: nat)

  function FindIndex(onChain: seq<Address>, a: Address): Option<nat> {
    if onChain == [] then None
    else if onChain[0] == a then Some(0)
    else match FindIndex(onChain[1..], a)
      case None => None
      case Some(i) => Some(i + 1)
  }

  lemma {:induction false} FindIndexIsFirst(onChain: seq<Address>, a: Address)
    ensures FindIndex(onChain, a).None? <==> a !in onChain
    ensures var i := FindIndex(onChain, a);
      i.Some? ==> i.value < |onChain| && onChain[i.value] == a && a !in onChain[..i.value]
  {
    if onChain != [] {
      FindIndexIsFirst(onChain[1..], a);
      assert onChain == [onChain[0]] + onChain[1..];
      var i := FindIndex(onChain, a);
      if i.Some? && i.value > 0 {
        assert onChain[..i.value] == [onChain[0]] + onChain[1..][..i.value - 1];
      }
    }
  }

  ghost predicate Ascending(signers: seq<Signer>) {
    forall i, j :: 0 <= i < j < |signers| ==> signers[i].index <= signers[j].index
  }

  ghost predicate StrictlyAscending(signers: seq<Signer>) {
    forall i, j :: 0 <= i < j < |signers| ==> signers[i].index < signers[j].index
  }

  /** Every signer carries the first on-chain position of its wallet. */
  ghost predicate Indexed(signers: seq<Signer>, onChain: seq<Address>) {
    forall s <- signers :: FindIndex(onChain, s.wallet) == Some(s.index)
  }

  function Wallets(signers: seq<Signer>): seq<Address> {
    seq(|signers|, i requires 0 <= i < |signers| => signers[i].wallet)
  }

  lemma InsertedAt(signers: seq<Signer>, k: nat, s: Signer)
    requires k <= |signers|
    ensures var r := signers[..k] + [s] + signers[k..];
      multiset(r) == multiset(signers) + multiset{s}
        && multiset(Wallets(r)) == multiset(Wallets(signers)) + multiset{s.wallet}
  {
    var front, back := signers[..k], signers[k..];
    assert signers == front + back;
    assert Wallets(signers) == Wallets(front) + Wallets(back);
    assert Wallets(front + [s] + back) == Wallets(front) + [s.wallet] + Wallets(back);
  }

  lemma InsertedAscends(signers: seq<Signer>, k: nat, s: Signer)
    requires Ascending(signers) && k <= |signers|
    requires k > 0 ==> signers[k - 1].index <= s.index
    requires forall j :: k <= j < |signers| ==> signers[j].index > s.index
    ensures Ascending(signers[..k] + [s] + signers[k..])
  {
    var r := signers[..k] + [s] + signers[k..];
    forall i, j | 0 <= i < j < |r| ensures r[i].index <= r[j].index {
      assert i < k ==> r[i] == signers[i] && signers[i].index <= signers[k - 1].index;
      assert j > k ==> r[j] == signers[j - 1];
      assert i > k ==> r[i] == signers[i - 1];
    }
  }

  /** Puts one more signer after those of at most its index. */
  method Insert(signers: seq<Signer>, s: Signer) returns (r: seq<Signer>)
    requires Ascending(signers)
    ensures Ascending(r) && multiset(r) == multiset(signers) + multiset{s}
    ensures multiset(Wallets(r)) == multiset(Wallets(signers)) + multiset{s.wallet}
  {
    var k := |signers|;
    while k > 0 && signers[k - 1].index > s.index
      invariant 0 <= k <= |signers|
      invariant forall j :: k <= j < |signers| ==> signers[j].index > s.index
    {
      k := k - 1;
    }
    r := signers[..k] + [s] + signers[k..];
    InsertedAt(signers, k, s);
    InsertedAscends(signers, k, s);
  }

  method SortByIndex(signers: seq<Signer>) returns (r: seq<Signer>)
    ensures Ascending(r) && multiset(r) == multiset(signers) && multiset(Wallets(r)) == multiset(Wallets(signers))
  {
    r := [];
    for i := 0 to |signers|
      invariant Ascending(r) && multiset(r) == multiset(signers[..i])
        && multiset(Wallets(r)) == multiset(Wallets(signers[..i]))
    {
      assert signers[..i + 1] == signers[..i] + [signers[i]];
      assert Wallets(signers[..i + 1]) == Wallets(signers[..i]) + [signers[i].wallet];
      r := Insert(r, signers[i]);
    }
    assert signers[..|signers|] == signers;
  }

  /**
   * The local wallets, each once per slot, in ascending order of their on-chain position; an error names the first
   * slot whose wallet is not an on-chain signer, and there is one exactly when such a slot exists.
   */
  method MapSignersToOnChain(onChain: seq<Address>, wallets: seq<Address>) returns (r: Result<seq<Signer>, MapError>)
    ensures r.Ok? <==> forall a <- wallets :: a in onChain
    ensures r.Err? ==> r.error.position < |wallets| && wallets[r.error.position] !in onChain
                       && forall k :: 0 <= k < r.error.position ==> wallets[k] in onChain
    ensures r.Ok? ==> multiset(Wallets(r.value)) == multiset(wallets) && Indexed(r.value, onChain) && Ascending(r.value)
  {
    var mapped: seq<Signer> := [];
    for i := 0 to |wallets|
      invariant forall k :: 0 <= k < i ==> wallets[k] in onChain
      invariant Indexed(mapped, onChain) && Wallets(mapped) == wallets[..i]
    {
      FindIndexIsFirst(onChain, wallets[i]);
      var index := FindIndex(onChain, wallets[i]);
      if index.None? {
        return Err(NotAnOnChainSigner(i));
      }
      mapped := mapped + [Signer(index.value, wallets[i])];
    }
    var sorted := SortByIndex(mapped);
    assert forall s :: s in multiset(sorted) <==> s in multiset(mapped);
    assert Indexed(sorted, onChain) by {
      forall s <- sorted ensures s in mapped { assert s in multiset(sorted); }
    }
    assert wallets[..|wallets|] == wallets;
    return Ok(sorted);
  }

  /** The order is strict exactly when no wallet is opened twice; the source does not check that. */
  lemma StrictIffDistinct(onChain: seq<Address>, signers: seq<Signer>)
    requires Indexed(signers, onChain) && Ascending(signers)
    ensures StrictlyAscending(signers) <==> Distinct(Wallets(signers))
  {
    var ws := Wallets(signers);
    forall i, j | 0 <= i < j < |signers|
      ensures signers[i].index == signers[j].index <==> ws[i] == ws[j]
    {
      assert signers[i] in signers && signers[j] in signers;
      FindIndexIsFirst(onChain, signers[i].wallet);
      FindIndexIsFirst(onChain, signers[j].wallet);
    }
  }

  // ----- Orders -----

  /** An order contract once a signer has proposed it; `required` is the threshold it was created with. */
  datatype Order = Order(required: nat, approvals: set<nat>, executed: bool)

  /**
   * What becomes of a message a signer wallet is asked to send: no sequence number change, one without a message, or
   * delivery.
   */
  datatype Fate = Stuck | SkippedSilently | Landed

  datatype SendError = BodyMissing | SeqnoStuck(position: nat) | NotExecuted

  datatype MakeError = Unmapped(error: MapError) | TooFewSigners(need: nat, have: nat)

  /** Proposing approves at once. */
  function Proposed(required: nat, index: nat): Order { Order(required, {index}, 1 >= required) }

  /** A second approval by one signer, or one after execution, is refused. */
  function Approve(o: Order, index: nat): Order {
    if o.executed || index in o.approvals then o
    else Order(o.required, o.approvals + {index}, |o.approvals| + 1 >= o.required)
  }

  function Indices(signers: seq<Signer>): set<nat> { set s | s in signers :: s.index }

  /** The approvals that reach an existing order: none when the proposal itself did not land. */
  function Collected(proposers: seq<Signer>, fates: seq<Fate>): set<nat>
    requires |proposers| <= |fates|
  {
    if |fates| == 0 || !fates[0].Landed? then {}
    else set i | 0 <= i < |proposers| && fates[i].Landed? :: proposers[i].index
  }

  lemma {:induction false} SubsetSize(a: set<nat>, b: set<nat>)
    requires a <= b
    ensures |a| <= |b|
    decreases a
  {
    if a != {} {
      var x :| x in a;
      SubsetSize(a - {x}, b - {x});
    }
  }

  /** When a send executes its order: every wallet moved on, and the approvals that landed suffice. */
  ghost predicate Succeeds(proposers: seq<Signer>, hasBody: bool, required: nat, fates: seq<Fate>)
    requires |proposers| <= |fates|
  {
    hasBody && Stuck !in fates && required <= |Collected(proposers, fates)|
  }

  class GovernorSender {
    const mapped: seq<Signer>
    const threshold: nat
    var completedOrders: nat

    constructor (mapped: seq<Signer>, threshold: nat)
      ensures this.mapped == mapped && this.threshold == threshold && completedOrders == 0
    {
      this.mapped := mapped;
      this.threshold := threshold;
      completedOrders := 0;
    }

    /**
     * Proposes with the first signer and asks the next ones, `threshold` in all, each once and in order. The send
     * succeeds exactly when every wallet moved on and the approvals that landed reach what the order requires;
     * the counter then grows by one, and otherwise stays.
     */
    method SendViaMultisig(hasBody: bool, required: nat, fates: seq<Fate>)
      returns (r: Result<Order, SendError>, asked: seq<Signer>)
      requires 1 <= threshold <= |mapped| && 1 <= required && |fates| == threshold
      modifies `completedOrders
      ensures r.Ok? <==> Succeeds(mapped[..threshold], hasBody, required, fates)
      ensures r.Err? ==>
        (match r.error
         case BodyMissing => !hasBody
         case SeqnoStuck(i) => hasBody && i < |fates| && fates[i].Stuck? && Stuck !in fates[..i]
         case NotExecuted => hasBody && Stuck !in fates)
      ensures completedOrders == old(completedOrders) + if r.Ok? then 1 else 0
      ensures r.Ok? ==> r.value.executed && r.value.approvals <= Indices(asked) && |r.value.approvals| == required
      ensures asked <= mapped[..threshold] && (r.Ok? ==> asked == mapped[..threshold])
    {
      asked := [];
      if !hasBody { return Err(BodyMissing), asked; }
      var proposers := mapped[..threshold];
      var first := proposers[0];
      asked := [first];
      if fates[0].Stuck? { return Err(SeqnoStuck(0)), asked; }
      var order := if fates[0].Landed? then Some(Proposed(required, first.index)) else None;
      ProposalStep(required, proposers, fates);
      for i := 1 to threshold
        invariant completedOrders == old(completedOrders)
        invariant asked == proposers[..i] && Stuck !in fates[..i]
        invariant OrderAfter(order, required, proposers, fates, i)
      {
        var signer := proposers[i];
        asked := asked + [signer];
        if fates[i].Stuck? { return Err(SeqnoStuck(i)), asked; }
        ApprovalStep(order, required, proposers, fates, i);
        if order.Some? && fates[i].Landed? {
          order := Some(Approve(order.value, signer.index));
        }
        assert fates[..i + 1] == fates[..i] + [fates[i]];
      }
      assert proposers[..threshold] == proposers && fates[..threshold] == fates;
      ExecutedIff(order, required, proposers, fates);
      if order.None? || !order.value.executed { return Err(NotExecuted), asked; }
      completedOrders := completedOrders + 1;
      return Ok(order.value), asked;
    }
  }

  /**
   * Maps the wallets and takes as many proposers as the larger of the configured and the on-chain threshold; a wallet
   * that is no on-chain signer, or too few wallets, is an error.
   */
  method MakeGovernorSender(onChain: seq<Address>, onChainThreshold: nat, wallets: seq<Address>, envThreshold: nat)
    returns (r: Result<GovernorSender, MakeError>)
    requires 1 <= envThreshold <= |wallets|
    ensures r.Ok? <==> (forall a <- wallets :: a in onChain) && onChainThreshold <= |wallets|
    ensures r.Err? ==> (r.error.Unmapped? <==> exists a <- wallets :: a !in onChain)
    ensures r.Ok? ==>
      && fresh(r.value) && r.value.completedOrders == 0
      && envThreshold <= r.value.threshold && onChainThreshold <= r.value.threshold <= |r.value.mapped|
      && (r.value.threshold == envThreshold || r.value.threshold == onChainThreshold)
      && multiset(Wallets(r.value.mapped)) == multiset(wallets) && Indexed(r.value.mapped, onChain)
      && Ascending(r.value.mapped)
  {
    var threshold := if envThreshold >= onChainThreshold then envThreshold else onChainThreshold;
    var mapping := MapSignersToOnChain(onChain, wallets);
    if mapping.Err? { return Err(Unmapped(mapping.error)); }
    var mapped := mapping.value;
    assert |Wallets(mapped)| == |multiset(Wallets(mapped))| == |multiset(wallets)| == |wallets|;
    if |mapped| < threshold { return Err(TooFewSigners(threshold, |mapped|)); }
    var sender := new GovernorSender(mapped, threshold);
    return Ok(sender);
  }

  /** An order that got these approvals, as far as it still took them. */
  ghost predicate OrderOf(o: Order, required: nat, collected: set<nat>) {
    && o.required == required && o.approvals <= collected
    && (o.executed ==> |o.approvals| == required)
    && (!o.executed ==> o.approvals == collected && |o.approvals| < required)
  }

  lemma ApproveCollects(o: Order, required: nat, collected: set<nat>, index: nat)
    requires OrderOf(o, required, collected)
    ensures OrderOf(Approve(o, index), required, collected + {index})
  {
    if index in o.approvals {
      assert collected + {index} == collected;
    } else {
      assert |o.approvals + {index}| == |o.approvals| + 1;
    }
  }

  /** The order after the first `i` proposers were asked; there is none when the proposal did not land. */
  ghost predicate OrderAfter(order: Option<Order>, required: nat, proposers: seq<Signer>, fates: seq<Fate>, i: nat)
    requires 1 <= i <= |proposers| <= |fates|
  {
    && (order.Some? <==> fates[0].Landed?)
    && (order.Some? ==> OrderOf(order.value, required, Collected(proposers[..i], fates)))
  }

  lemma ProposalStep(required: nat, proposers: seq<Signer>, fates: seq<Fate>)
    requires 1 <= |proposers| <= |fates| && 1 <= required
    ensures OrderAfter(if fates[0].Landed? then Some(Proposed(required, proposers[0].index)) else None, required,
      proposers, fates, 1)
  {
    if fates[0].Landed? {
      assert proposers[..1][0] == proposers[0];
      assert Collected(proposers[..1], fates) == {proposers[0].index};
    }
  }

  lemma ApprovalStep(order: Option<Order>, required: nat, proposers: seq<Signer>, fates: seq<Fate>, i: nat)
    requires 1 <= i < |proposers| <= |fates| && OrderAfter(order, required, proposers, fates, i)
    ensures OrderAfter(if order.Some? && fates[i].Landed?
                         then Some(Approve(order.value, proposers[i].index)) else order,
                       required, proposers, fates, i + 1)
  {
    CollectedGrows(proposers, fates, i);
    if order.Some? && fates[i].Landed? {
      ApproveCollects(order.value, required, Collected(proposers[..i], fates), proposers[i].index);
    }
  }

  lemma ExecutedIff(order: Option<Order>, required: nat, proposers: seq<Signer>, fates: seq<Fate>)
    requires 1 <= |proposers| <= |fates| && 1 <= required && OrderAfter(order, required, proposers, fates, |proposers|)
    ensures order.Some? && order.value.executed <==> required <= |Collected(proposers, fates)|
    ensures order.Some? && order.value.executed ==>
      order.value.approvals <= Indices(proposers) && |order.value.approvals| == required
  {
    assert proposers[..|proposers|] == proposers;
    if order.Some? {
      SubsetSize(order.value.approvals, Collected(proposers, fates));
      ApprovalsAreAsked(proposers, fates);
    }
  }

  lemma CollectedGrows(proposers: seq<Signer>, fates: seq<Fate>, i: nat)
    requires 1 <= i < |proposers| <= |fates|
    ensures Collected(proposers[..i + 1], fates) ==
      Collected(proposers[..i], fates) + if fates[0].Landed? && fates[i].Landed? then {proposers[i].index} else {}
  {
    if fates[0].Landed? {
      var before, after := Collected(proposers[..i], fates), Collected(proposers[..i + 1], fates);
      forall x ensures x in after <==> x in before || (fates[i].Landed? && x == proposers[i].index) {
        if x in before {
          var k :| 0 <= k < i && fates[k].Landed? && proposers[..i][k].index == x;
          assert proposers[..i + 1][k].index == x;
        }
        if fates[i].Landed? { assert proposers[..i + 1][i].index in after; }
        if x in after {
          var k :| 0 <= k < i + 1 && fates[k].Landed? && proposers[..i + 1][k].index == x;
          if k < i { assert proposers[..i][k].index in before; }
        }
      }
    }
  }

  lemma ApprovalsAreAsked(proposers: seq<Signer>, fates: seq<Fate>)
    requires |proposers| <= |fates|
    ensures Collected(proposers, fates) <= Indices(proposers)
  {
  }

  /** The distinct wallets among the signers. */
  function WalletSet(signers: seq<Signer>): set<Address> { set s | s in signers :: s.wallet }

  lemma SetsOfSnoc(before: seq<Signer>, s: Signer)
    ensures Indices(before + [s]) == Indices(before) + {s.index}
    ensures WalletSet(before + [s]) == WalletSet(before) + {s.wallet}
  {
    var signers := before + [s];
    assert forall t :: t in signers <==> t in before || t == s;
  }

  lemma NewIndexIffNewWallet(onChain: seq<Address>, before: seq<Signer>, s: Signer)
    requires Indexed(before + [s], onChain)
    ensures s.index in Indices(before) <==> s.wallet in WalletSet(before)
  {
    FindIndexIsFirst(onChain, s.wallet);
    assert s in before + [s];
    forall t | t in before ensures t.index == s.index <==> t.wallet == s.wallet {
      assert t in before + [s];
      FindIndexIsFirst(onChain, t.wallet);
    }
  }

  lemma {:induction false} AsManyIndicesAsWallets(onChain: seq<Address>, signers: seq<Signer>)
    requires Indexed(signers, onChain)
    ensures |Indices(signers)| == |WalletSet(signers)|
  {
    if signers == [] {
    } else {
      var n := |signers| - 1;
      var before, s := signers[..n], signers[n];
      assert signers == before + [s];
      AsManyIndicesAsWallets(onChain, before);
      SetsOfSnoc(before, s);
      NewIndexIffNewWallet(onChain, before, s);
    }
  }

  /**
   * When every message lands, the approvals collected are as many as there are different wallets among the
   * proposers: a wallet opened in two slots counts once, so such an order can fall short of its threshold.
   */
  lemma ApprovalsCountDistinctWallets(onChain: seq<Address>, proposers: seq<Signer>, fates: seq<Fate>)
    requires Indexed(proposers, onChain) && |proposers| == |fates| && forall f <- fates :: f.Landed?
    ensures |Collected(proposers, fates)| == |WalletSet(proposers)|
  {
    forall x ensures x in Collected(proposers, fates) <==> x in Indices(proposers) {
      if x in Indices(proposers) {
        var s :| s in proposers && s.index == x;
        var i :| 0 <= i < |proposers| && proposers[i] == s;
        assert fates[i] in fates && fates[0] in fates;
      }
    }
    assert Collected(proposers, fates) == Indices(proposers);
    AsManyIndicesAsWallets(onChain, proposers);
  }

  lemma {:induction false} DistinctWalletsCount(signers: seq<Signer>)
    requires Distinct(Wallets(signers))
    ensures |WalletSet(signers)| == |signers|
  {
    if signers == [] {
    } else {
      var n := |signers| - 1;
      var before, s := signers[..n], signers[n];
      assert signers == before + [s];
      assert Wallets(before) == Wallets(signers)[..n];
      DistinctWalletsCount(before);
      SetsOfSnoc(before, s);
      forall t | t in before ensures t.wallet != s.wallet {
        var i :| 0 <= i < n && signers[i] == t;
        assert Wallets(signers)[i] != Wallets(signers)[n];
      }
    }
  }

  /**
   * With distinct wallets and every message landing, the approvals number exactly the chosen threshold: a send then
   * executes its order exactly when the order requires no more than that.
   */
  lemma DistinctSignersReachTheThreshold(onChain: seq<Address>, proposers: seq<Signer>, fates: seq<Fate>)
    requires Indexed(proposers, onChain) && Distinct(Wallets(proposers))
    requires |proposers| == |fates| && forall f <- fates :: f.Landed?
    ensures |Collected(proposers, fates)| == |proposers|
  {
    ApprovalsCountDistinctWallets(onChain, proposers, fates);
    DistinctWalletsCount(proposers);
  }

  /**
   * When every message lands, a send executes its order exactly when the order requires no more approvals than there
   * are different wallets among the proposers.
   */
  lemma SendSucceedsIff(onChain: seq<Address>, proposers: seq<Signer>, required: nat, fates: seq<Fate>)
    requires Indexed(proposers, onChain) && |proposers| == |fates| && forall f <- fates :: f.Landed?
    ensures Succeeds(proposers, true, required, fates) <==> required <= |WalletSet(proposers)|
  {
    ApprovalsCountDistinctWallets(onChain, proposers, fates);
  }

  /** One wallet opened in both slots of a two-of-two multisig: everything lands, and the order is not executed. */
  method OneWalletInTwoSlots(wallet: Address, other: Address) returns (r: Result<Order, SendError>)
    requires wallet != other
    ensures r == Err(NotExecuted)
  {
    var onChain := [wallet, other];
    FindIndexIsFirst(onChain, wallet);
    var made := MakeGovernorSender(onChain, 2, [wallet, wallet], 2);
    var sender := made.value;
    var proposers := sender.mapped[..sender.threshold];
    assert multiset(Wallets(sender.mapped)) == multiset{wallet, wallet};
    assert |Wallets(sender.mapped)| == |multiset(Wallets(sender.mapped))| == 2;
    assert proposers == sender.mapped;
    OneWalletOnly(proposers, wallet);
    SendSucceedsIff(onChain, proposers, 2, [Landed, Landed]);
    var asked;
    r, asked := sender.SendViaMultisig(true, 2, [Landed, Landed]);
  }

  lemma OneWalletOnly(signers: seq<Signer>, wallet: Address)
    requires signers != [] && forall a <- multiset(Wallets(signers)) :: a == wallet
    ensures WalletSet(signers) == {wallet}
  {
    forall s | s in signers ensures s.wallet == wallet {
      var i :| 0 <= i < |signers| && signers[i] == s;
      assert Wallets(signers)[i] in multiset(Wallets(signers));
    }
    assert signers[0] in signers;
  }
}
