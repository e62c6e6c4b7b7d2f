/** The mint plan, and its grouping by owner address. */
module Allocations {
  import opened Common

  datatype Receiver =
    VestingDeveloper | AirdropHolder | StakingPool | VestingEcosystem | LiquidityHolder | VestingReserve

  datatype Allocation = Allocation(name: string, burnAmount: nat, receiver: Receiver)

  const MINT_ALLOCATIONS: seq<Allocation> := [
    Allocation("Developer vesting", 7, VestingDeveloper),
    Allocation("Community airdrop", 200, AirdropHolder),
    Allocation("Staking emission reserve", 300, StakingPool),
    Allocation("Ecosystem vesting", 150, VestingEcosystem),
    Allocation("Liquidity pool", 300, LiquidityHolder),
    Allocation("Reserve vesting", 43, VestingReserve)
  ]

  datatype OwnerBalance = OwnerBalance(owner: Address, expectedNano: nat, labels: seq<string>)

  /** What the plan gives to one owner. */
  function ExpectedFor(plan: seq<Allocation>, resolve: Receiver -> Address, owner: Address): nat {
    if plan == [] then 0
    else
      var last := plan[|plan| - 1];
      ExpectedFor(plan[..|plan| - 1], resolve, owner)
      + (if resolve(last.receiver) == owner then last.burnAmount * NANO else 0)
  }

  /** The labels of the allocations of one owner, in plan order. */
  function LabelsFor(plan: seq<Allocation>, resolve: Receiver -> Address, owner: Address): seq<string> {
    if plan == [] then []
    else
      var last := plan[|plan| - 1];
      LabelsFor(plan[..|plan| - 1], resolve, owner) + (if resolve(last.receiver) == owner then [last.name] else [])
  }

  /** The owners in the order in which the plan first names them. */
  function Owners(plan: seq<Allocation>, resolve: Receiver -> Address): (owners: seq<Address>)
    ensures Distinct(owners)
    ensures forall o :: o in owners <==> exists i :: 0 <= i < |plan| && resolve(plan[i].receiver) == o
  {
    if plan == [] then []
    else
      var n := |plan| - 1;
      var before := Owners(plan[..n], resolve);
      var owner := resolve(plan[n].receiver);
      assert plan == plan[..n] + [plan[n]];
      if owner in before then before else before + [owner]
  }

  function EntryFor(plan: seq<Allocation>, resolve: Receiver -> Address, owner: Address): OwnerBalance {
    OwnerBalance(owner, ExpectedFor(plan, resolve, owner), LabelsFor(plan, resolve, owner))
  }

  function Aggregated(plan: seq<Allocation>, resolve: Receiver -> Address): seq<OwnerBalance> {
    var owners := Owners(plan, resolve);
    seq(|owners|, i requires 0 <= i < |owners| => EntryFor(plan, resolve, owners[i]))
  }

  /** Entries by owner, for exactly the owners of the plan. */
  ghost predicate Grouped(byOwner: map<Address, OwnerBalance>, order: seq<Address>, plan: seq<Allocation>,
                          resolve: Receiver -> Address) {
    && order == Owners(plan, resolve)
    && (forall o :: o in byOwner <==> o in order)
    && (forall o :: o in order ==> byOwner[o] == EntryFor(plan, resolve, o))
  }

  /** The entry of its owner grows by the last allocation; the others stay. */
  lemma EntryGrows(plan: seq<Allocation>, resolve: Receiver -> Address, o: Address)
    requires plan != []
    ensures var last := plan[|plan| - 1];
      var before := EntryFor(plan[..|plan| - 1], resolve, o);
      EntryFor(plan, resolve, o) ==
        if resolve(last.receiver) == o
        then OwnerBalance(o, before.expectedNano + last.burnAmount * NANO, before.labels + [last.name])
        else before
  {
  }

  lemma GroupingGrows(byOwner: map<Address, OwnerBalance>, order: seq<Address>, plan: seq<Allocation>,
                      resolve: Receiver -> Address, entry: OwnerBalance)
    requires plan != [] && Grouped(byOwner, order, plan[..|plan| - 1], resolve)
    requires entry == EntryFor(plan, resolve, resolve(plan[|plan| - 1].receiver))
    ensures var owner := resolve(plan[|plan| - 1].receiver);
      Grouped(byOwner[owner := entry], if owner in byOwner then order else order + [owner], plan, resolve)
  {
    var n := |plan| - 1;
    var owner := resolve(plan[n].receiver);
    var next := if owner in byOwner then order else order + [owner];
    assert next == Owners(plan, resolve);
    assert forall o :: o in next <==> o in order || o == owner;
    forall o | o in order && o != owner ensures byOwner[o] == EntryFor(plan, resolve, o) {
      EntryGrows(plan, resolve, o);
    }
  }

  lemma PrefixOf(plan: seq<Allocation>, i: nat)
    requires i < |plan|
    ensures var next := plan[..i + 1];
      next != [] && next[..|next| - 1] == plan[..i] && next[|next| - 1] == plan[i]
  {
  }

  /** Groups the plan in one pass: an owner met again has its entry updated in place. */
  method AggregateExpectedBalancesByOwner(plan: seq<Allocation>, resolve: Receiver -> Address)
    returns (out: seq<OwnerBalance>)
    ensures out == Aggregated(plan, resolve)
  {
    var byOwner: map<Address, OwnerBalance>, order: seq<Address> := map[], [];
    for i := 0 to |plan|
      invariant Grouped(byOwner, order, plan[..i], resolve)
    {
      var owner := resolve(plan[i].receiver);
      var amount := plan[i].burnAmount * NANO;
      ghost var next := plan[..i + 1];
      PrefixOf(plan, i);
      EntryGrows(next, resolve, owner);
      var entry: OwnerBalance;
      if owner in byOwner {
        entry := byOwner[owner];
        entry := entry.(expectedNano := entry.expectedNano + amount, labels := entry.labels + [plan[i].name]);
      } else {
        NothingForStranger(plan[..i], resolve, owner);
        entry := OwnerBalance(owner, amount, [plan[i].name]);
      }
      GroupingGrows(byOwner, order, next, resolve, entry);
      order := if owner in byOwner then order else order + [owner];
      byOwner := byOwner[owner := entry];
    }
    assert plan[..|plan|] == plan;
    out := seq(|order|, i requires 0 <= i < |order| => byOwner[order[i]]);
    assert forall i :: 0 <= i < |order| ==> out[i] == Aggregated(plan, resolve)[i];
  }

  lemma {:induction false} NothingForStranger(plan: seq<Allocation>, resolve: Receiver -> Address, owner: Address)
    requires owner !in Owners(plan, resolve)
    ensures ExpectedFor(plan, resolve, owner) == 0 && LabelsFor(plan, resolve, owner) == []
  {
    if plan == [] {
    } else {
      assert resolve(plan[|plan| - 1].receiver) in Owners(plan, resolve);
      NothingForStranger(plan[..|plan| - 1], resolve, owner);
    }
  }

  // ----- Conservation -----

  function PlanTotal(plan: seq<Allocation>): nat {
    if plan == [] then 0 else PlanTotal(plan[..|plan| - 1]) + plan[|plan| - 1].burnAmount * NANO
  }

  function TotalExpected(entries: seq<OwnerBalance>): nat {
    if entries == [] then 0 else TotalExpected(entries[..|entries| - 1]) + entries[|entries| - 1].expectedNano
  }

  function ExpectedOver(plan: seq<Allocation>, resolve: Receiver -> Address, owners: seq<Address>): nat {
    if owners == [] then 0
    else ExpectedOver(plan, resolve, owners[..|owners| - 1]) + ExpectedFor(plan, resolve, owners[|owners| - 1])
  }

  lemma {:induction false} OneMoreAllocation(plan: seq<Allocation>, resolve: Receiver -> Address, owners: seq<Address>)
    requires plan != [] && Distinct(owners)
    ensures var last := plan[|plan| - 1];
      ExpectedOver(plan, resolve, owners) == ExpectedOver(plan[..|plan| - 1], resolve, owners)
        + (if resolve(last.receiver) in owners then last.burnAmount * NANO else 0)
    decreases |owners|
  {
    if owners == [] {
    } else {
      var init, o := owners[..|owners| - 1], owners[|owners| - 1];
      assert owners == init + [o] && o !in init;
      OneMoreAllocation(plan, resolve, init);
    }
  }

  lemma {:induction false} OwnersCoverPlan(plan: seq<Allocation>, resolve: Receiver -> Address)
    ensures ExpectedOver(plan, resolve, Owners(plan, resolve)) == PlanTotal(plan)
  {
    if plan == [] {
    } else {
      var init, owner := plan[..|plan| - 1], resolve(plan[|plan| - 1].receiver);
      OwnersCoverPlan(init, resolve);
      var before, owners := Owners(init, resolve), Owners(plan, resolve);
      OneMoreAllocation(plan, resolve, owners);
      if owner !in before {
        assert owners[..|owners| - 1] == before;
        NothingForStranger(init, resolve, owner);
      }
    }
  }

  lemma {:induction false} EntriesAddUp(plan: seq<Allocation>, resolve: Receiver -> Address, owners: seq<Address>,
                                        entries: seq<OwnerBalance>)
    requires |entries| == |owners| && forall i :: 0 <= i < |owners| ==> entries[i] == EntryFor(plan, resolve, owners[i])
    ensures TotalExpected(entries) == ExpectedOver(plan, resolve, owners)
    decreases |owners|
  {
    if owners == [] {
    } else {
      EntriesAddUp(plan, resolve, owners[..|owners| - 1], entries[..|owners| - 1]);
    }
  }

  /** Grouping names each owner once and conserves the plan's total, whatever the receivers resolve to. */
  lemma AggregationConserves(plan: seq<Allocation>, resolve: Receiver -> Address)
    ensures var out := Aggregated(plan, resolve);
      && (forall i, j :: 0 <= i < j < |out| ==> out[i].owner != out[j].owner)
      && (forall k :: 0 <= k < |plan| ==> exists i :: 0 <= i < |out| && out[i].owner == resolve(plan[k].receiver))
      && TotalExpected(out) == PlanTotal(plan)
  {
    var owners, out := Owners(plan, resolve), Aggregated(plan, resolve);
    forall k | 0 <= k < |plan| ensures exists i :: 0 <= i < |out| && out[i].owner == resolve(plan[k].receiver) {
      assert resolve(plan[k].receiver) in owners;
      var i :| 0 <= i < |owners| && owners[i] == resolve(plan[k].receiver);
      assert out[i].owner == owners[i];
    }
    OwnersCoverPlan(plan, resolve);
    EntriesAddUp(plan, resolve, owners, out);
  }

  /** The shipped plan hands out the whole supply. */
  lemma PlanIsWholeSupply()
    ensures PlanTotal(MINT_ALLOCATIONS) == MAX_SUPPLY_NANO
  {
    var p := MINT_ALLOCATIONS;
    assert p[..5][..4] == p[..4] && p[..4][..3] == p[..3] && p[..3][..2] == p[..2] && p[..2][..1] == p[..1]
      && p[..1][..0] == [];
    assert PlanTotal(p[..1]) == 7 * NANO;
    assert PlanTotal(p[..2]) == 207 * NANO;
    assert PlanTotal(p[..3]) == 507 * NANO;
    assert PlanTotal(p[..4]) == 657 * NANO;
    assert PlanTotal(p[..5]) == 957 * NANO;
  }
}
