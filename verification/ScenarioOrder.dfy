/**
 * Soft topological ordering of scenarios by `depends_on`: a depth-first search that
 * ignores missing dependencies and stops at nodes that are still being visited.
 */
module ScenarioOrder {

  datatype Scenario = Scenario(
    id: string,
    tags: seq<string>,
    destructive: bool,
    dependsOn: seq<string>)

  type Catalog = map<string, Scenario>

  function IdsOf(scenarios: seq<Scenario>): (ids: seq<string>)
    ensures |ids| == |scenarios| && forall i :: 0 <= i < |ids| ==> ids[i] == scenarios[i].id
  {
    seq(|scenarios|, i requires 0 <= i < |scenarios| => scenarios[i].id)
  }

  ghost predicate DistinctIds(scenarios: seq<Scenario>) {
    forall i, j :: 0 <= i < j < |scenarios| ==> scenarios[i].id != scenarios[j].id
  }

  function Ids(scenarios: seq<Scenario>): set<string> {
    set s | s in scenarios :: s.id
  }

  /** The lookup table; of two scenarios with one id, the later one stays. */
  function ById(scenarios: seq<Scenario>): (m: Catalog)
    ensures forall id :: id in m ==> m[id].id == id && m[id] in scenarios
    ensures m.Keys == Ids(scenarios)
  {
    if scenarios == [] then map[]
    else
      var last := scenarios[|scenarios| - 1];
      assert scenarios == scenarios[..|scenarios| - 1] + [last];
      ById(scenarios[..|scenarios| - 1])[last.id := last]
  }

  ghost predicate WellFormed(byId: Catalog) {
    forall id :: id in byId ==> byId[id].id == id
  }

  // ----- The search as a function of (nodes on the stack, output so far) -----

  function Visit(byId: Catalog, visiting: set<string>, out: seq<Scenario>, id: string): seq<Scenario>
    decreases byId.Keys - visiting, 0
  {
    if id in Ids(out) || id !in byId || id in visiting then out
    else VisitAll(byId, visiting + {id}, out, byId[id].dependsOn) + [byId[id]]
  }

  function VisitAll(byId: Catalog, visiting: set<string>, out: seq<Scenario>, ids: seq<string>): seq<Scenario>
    decreases byId.Keys - visiting, |ids| + 1
  {
    if ids == [] then out
    else
      var n := |ids| - 1;
      Visit(byId, visiting, VisitAll(byId, visiting, out, ids[..n]), ids[n])
  }

  function Order(scenarios: seq<Scenario>): seq<Scenario> {
    VisitAll(ById(scenarios), {}, [], IdsOf(scenarios))
  }

  // ----- The search as the source runs it, on mutable sets and an output list -----

  class DepthFirstSearch {
    const byId: Catalog
    var visiting: set<string>
    var done: set<string>
    var out: seq<Scenario>

    constructor (scenarios: seq<Scenario>)
      ensures byId == ById(scenarios) && visiting == {} && done == {} && out == []
    {
      byId, visiting, done, out := ById(scenarios), {}, {}, [];
    }

    method VisitNode(id: string)
      requires WellFormed(byId) && done == Ids(out)
      modifies this
      ensures visiting == old(visiting) && done == Ids(out)
      ensures out == Visit(byId, old(visiting), old(out), id)
      decreases byId.Keys - visiting
    {
      if id in done || id !in byId {
        return;
      }
      if id in visiting {
        return;
      }
      visiting := visiting + {id};
      var s := byId[id];
      for i := 0 to |s.dependsOn|
        invariant visiting == old(visiting) + {id} && done == Ids(out)
        invariant out == VisitAll(byId, visiting, old(out), s.dependsOn[..i])
      {
        VisitNode(s.dependsOn[i]);
        assert s.dependsOn[..i + 1][..i] == s.dependsOn[..i];
      }
      assert s.dependsOn[..|s.dependsOn|] == s.dependsOn;
      visiting := visiting - {id};
      done := done + {id};
      out := out + [s];
    }
  }

  method OrderByDependsOn(scenarios: seq<Scenario>) returns (out: seq<Scenario>)
    ensures out == Order(scenarios)
    ensures DistinctIds(scenarios) ==> multiset(out) == multiset(scenarios)
  {
    var search := new DepthFirstSearch(scenarios);
    var ids := IdsOf(scenarios);
    for i := 0 to |scenarios|
      invariant search.byId == ById(scenarios) && search.visiting == {} && search.done == Ids(search.out)
      invariant fresh(search)
      invariant search.out == VisitAll(search.byId, {}, [], ids[..i])
    {
      search.VisitNode(scenarios[i].id);
      assert ids[..i + 1][..i] == ids[..i];
    }
    assert ids[..|ids|] == ids;
    out := search.out;
    if DistinctIds(scenarios) {
      OrderIsPermutation(scenarios);
    }
  }

  // ----- What the search keeps -----

  /** `out` lists catalog entries, none twice and none that is still on the stack. */
  ghost predicate Sound(byId: Catalog, visiting: set<string>, out: seq<Scenario>) {
    && (forall i :: 0 <= i < |out| ==> out[i].id in byId && byId[out[i].id] == out[i])
    && DistinctIds(out)
    && Ids(out) !! visiting
  }

  lemma {:induction false} VisitSound(byId: Catalog, visiting: set<string>, out: seq<Scenario>, id: string)
    requires WellFormed(byId) && Sound(byId, visiting, out)
    ensures var r := Visit(byId, visiting, out, id);
      && out <= r && Sound(byId, visiting, r)
      && (id in byId && id !in visiting ==> id in Ids(r))
    decreases byId.Keys - visiting, 0
  {
    if id in Ids(out) || id !in byId || id in visiting {
    } else {
      VisitAllSound(byId, visiting + {id}, out, byId[id].dependsOn);
      var inner := VisitAll(byId, visiting + {id}, out, byId[id].dependsOn);
      var r := inner + [byId[id]];
      assert forall s :: s in inner ==> s.id in Ids(inner);
      assert byId[id] in r;
      assert Ids(r) <= Ids(inner) + {id};
    }
  }

  lemma {:induction false} VisitAllSound(byId: Catalog, visiting: set<string>, out: seq<Scenario>, ids: seq<string>)
    requires WellFormed(byId) && Sound(byId, visiting, out)
    ensures var r := VisitAll(byId, visiting, out, ids);
      && out <= r && Sound(byId, visiting, r)
      && (forall d :: d in ids && d in byId && d !in visiting ==> d in Ids(r))
    decreases byId.Keys - visiting, |ids| + 1
  {
    if ids == [] {
    } else {
      var n := |ids| - 1;
      VisitAllSound(byId, visiting, out, ids[..n]);
      var mid := VisitAll(byId, visiting, out, ids[..n]);
      VisitSound(byId, visiting, mid, ids[n]);
      IdsGrow(mid, Visit(byId, visiting, mid, ids[n]));
      assert ids == ids[..n] + [ids[n]];
    }
  }

  lemma IdsGrow(a: seq<Scenario>, b: seq<Scenario>)
    requires a <= b
    ensures Ids(a) <= Ids(b)
  {
    assert forall s :: s in a ==> s in b;
  }

  // ----- Reachability and the order of dependencies -----

  /** `path` walks from `a` to `b` along listed dependencies that are present. */
  ghost predicate IsPath(byId: Catalog, path: seq<string>, a: string, b: string) {
    && |path| > 0 && path[0] == a && path[|path| - 1] == b
    && forall i :: 0 <= i < |path| - 1 ==> Edge(byId, path[i], path[i + 1])
  }

  ghost predicate Edge(byId: Catalog, a: string, b: string) {
    a in byId && b in byId && b in byId[a].dependsOn
  }

  ghost predicate Reaches(byId: Catalog, a: string, b: string) {
    exists path :: IsPath(byId, path, a, b)
  }

  lemma ReachesSelf(byId: Catalog, a: string)
    ensures Reaches(byId, a, a)
  {
    assert IsPath(byId, [a], a, a);
  }

  lemma ReachesStep(byId: Catalog, a: string, b: string, c: string)
    requires Reaches(byId, a, b) && Edge(byId, b, c)
    ensures Reaches(byId, a, c)
  {
    var path :| IsPath(byId, path, a, b);
    assert IsPath(byId, path + [c], a, c);
  }

  /** Every present dependency stands earlier, unless it leads back to its dependant. */
  ghost predicate SoftOrdered(byId: Catalog, out: seq<Scenario>) {
    forall i, d :: 0 <= i < |out| && d in out[i].dependsOn && d in byId ==>
      d in Ids(out[..i]) || Reaches(byId, d, out[i].id)
  }

  ghost predicate StackReaches(byId: Catalog, visiting: set<string>, id: string) {
    id in byId ==> forall v :: v in visiting ==> Reaches(byId, v, id)
  }

  lemma {:induction false} VisitOrdered(byId: Catalog, visiting: set<string>, out: seq<Scenario>, id: string)
    requires WellFormed(byId) && Sound(byId, visiting, out) && SoftOrdered(byId, out)
    requires StackReaches(byId, visiting, id)
    ensures SoftOrdered(byId, Visit(byId, visiting, out, id))
    decreases byId.Keys - visiting, 0
  {
    if id in Ids(out) || id !in byId || id in visiting {
    } else {
      var deps := byId[id].dependsOn;
      ReachesSelf(byId, id);
      forall d | d in deps && d in byId
        ensures StackReaches(byId, visiting + {id}, d)
      {
        forall v | v in visiting + {id} ensures Reaches(byId, v, d) {
          ReachesStep(byId, v, id, d);
        }
      }
      VisitAllOrdered(byId, visiting + {id}, out, deps);
      VisitAllSound(byId, visiting + {id}, out, deps);
      PushKeepsOrder(byId, VisitAll(byId, visiting + {id}, out, deps), byId[id]);
    }
  }

  lemma PushKeepsOrder(byId: Catalog, inner: seq<Scenario>, s: Scenario)
    requires SoftOrdered(byId, inner)
    requires forall d :: d in s.dependsOn && d in byId ==> d in Ids(inner) || Reaches(byId, d, s.id)
    ensures SoftOrdered(byId, inner + [s])
  {
    var r := inner + [s];
    forall i, d | 0 <= i < |r| && d in r[i].dependsOn && d in byId
      ensures d in Ids(r[..i]) || Reaches(byId, d, r[i].id)
    {
      if i < |inner| {
        assert r[..i] == inner[..i];
      } else {
        assert r[..i] == inner;
      }
    }
  }

  lemma {:induction false} VisitAllOrdered(byId: Catalog, visiting: set<string>, out: seq<Scenario>, ids: seq<string>)
    requires WellFormed(byId) && Sound(byId, visiting, out) && SoftOrdered(byId, out)
    requires forall d :: d in ids ==> StackReaches(byId, visiting, d)
    ensures SoftOrdered(byId, VisitAll(byId, visiting, out, ids))
    decreases byId.Keys - visiting, |ids| + 1
  {
    if ids == [] {
    } else {
      var n := |ids| - 1;
      VisitAllOrdered(byId, visiting, out, ids[..n]);
      VisitAllSound(byId, visiting, out, ids[..n]);
      VisitOrdered(byId, visiting, VisitAll(byId, visiting, out, ids[..n]), ids[n]);
    }
  }

  // ----- Main results -----

  /** The output lists each id of the input exactly once, as the lookup table has it. */
  lemma OrderIsComplete(scenarios: seq<Scenario>)
    ensures var out := Order(scenarios);
      DistinctIds(out) && Ids(out) == Ids(scenarios) && forall s :: s in out ==> s in scenarios
  {
    var byId := ById(scenarios);
    VisitAllSound(byId, {}, [], IdsOf(scenarios));
    var out := Order(scenarios);
    forall id | id in Ids(scenarios) ensures id in Ids(out) {
      var i :| 0 <= i < |scenarios| && scenarios[i].id == id;
      assert IdsOf(scenarios)[i] == id;
    }
  }

  lemma OneScenarioPerId(scenarios: seq<Scenario>, s: Scenario, t: Scenario)
    requires DistinctIds(scenarios) && s in scenarios && t in scenarios && s.id == t.id
    ensures s == t
  {
  }

  lemma ByIdOfDistinct(scenarios: seq<Scenario>)
    requires DistinctIds(scenarios)
    ensures forall s :: s in scenarios ==> ById(scenarios)[s.id] == s
  {
    forall s | s in scenarios ensures s.id in ById(scenarios) && ById(scenarios)[s.id] == s {
      assert s.id in Ids(scenarios);
      OneScenarioPerId(scenarios, s, ById(scenarios)[s.id]);
    }
  }

  lemma DistinctIdsCount(scenarios: seq<Scenario>, s: Scenario)
    requires DistinctIds(scenarios)
    ensures multiset(scenarios)[s] == if s in scenarios then 1 else 0
  {
    if scenarios != [] {
      var n := |scenarios| - 1;
      assert scenarios == scenarios[..n] + [scenarios[n]];
      DistinctIdsCount(scenarios[..n], s);
    }
  }

  /** With distinct ids the output is a permutation of the input. */
  lemma OrderIsPermutation(scenarios: seq<Scenario>)
    requires DistinctIds(scenarios)
    ensures multiset(Order(scenarios)) == multiset(scenarios)
  {
    var out := Order(scenarios);
    OrderIsComplete(scenarios);
    ByIdOfDistinct(scenarios);
    forall s ensures multiset(out)[s] == multiset(scenarios)[s] {
      DistinctIdsCount(out, s);
      DistinctIdsCount(scenarios, s);
      if s in scenarios {
        assert s.id in Ids(out);
        var t :| t in out && t.id == s.id;
      }
    }
  }

  /** `d` stands before position `i`. */
  ghost predicate StandsBefore(out: seq<Scenario>, d: string, i: int) {
    exists j :: 0 <= j < i && j < |out| && out[j].id == d
  }

  /** A present dependency that does not lead back to its dependant comes first, cycles or not. */
  lemma OrderRespectsDependencies(scenarios: seq<Scenario>)
    ensures var byId := ById(scenarios); var out := Order(scenarios);
      forall i, d :: 0 <= i < |out| && d in out[i].dependsOn && d in byId && !Reaches(byId, d, out[i].id) ==>
        StandsBefore(out, d, i)
  {
    var byId := ById(scenarios);
    VisitAllOrdered(byId, {}, [], IdsOf(scenarios));
    var out := Order(scenarios);
    forall i, d | 0 <= i < |out| && d in out[i].dependsOn && d in byId && !Reaches(byId, d, out[i].id)
      ensures StandsBefore(out, d, i)
    {
      var s :| s in out[..i] && s.id == d;
    }
  }

  /** No scenario leads back to itself through one of its dependencies. */
  ghost predicate Acyclic(byId: Catalog) {
    forall a, b :: Edge(byId, a, b) ==> !Reaches(byId, b, a)
  }

  /** Every present dependency stands strictly earlier. */
  ghost predicate Topological(byId: Catalog, out: seq<Scenario>) {
    forall i, d :: 0 <= i < |out| && d in out[i].dependsOn && d in byId ==> StandsBefore(out, d, i)
  }

  /** Every present dependency stands at the dependant's place or before it. */
  ghost predicate InDependencyOrder(byId: Catalog, scenarios: seq<Scenario>) {
    forall i, d :: 0 <= i < |scenarios| && d in scenarios[i].dependsOn && d in byId ==>
      d in Ids(scenarios[..i + 1])
  }

  /** `d` stands at position `i` or before it. */
  ghost predicate StandsBy(out: seq<Scenario>, d: string, i: int) {
    exists j :: 0 <= j <= i && j < |out| && out[j].id == d
  }

  ghost predicate WeaklyTopological(byId: Catalog, out: seq<Scenario>) {
    forall i, d :: 0 <= i < |out| && d in out[i].dependsOn && d in byId ==> StandsBy(out, d, i)
  }

  lemma StandsByIff(out: seq<Scenario>, d: string, i: nat)
    requires i < |out|
    ensures StandsBy(out, d, i) <==> d in Ids(out[..i + 1])
  {
    var front := out[..i + 1];
    if StandsBy(out, d, i) {
      var j :| 0 <= j <= i && j < |out| && out[j].id == d;
      assert front[j] == out[j];
    }
    if d in Ids(front) {
      var s :| s in front && s.id == d;
      var j :| 0 <= j < |front| && front[j] == s;
      assert out[j] == s;
    }
  }

  lemma InOrderIffWeaklyTopological(byId: Catalog, out: seq<Scenario>)
    ensures InDependencyOrder(byId, out) <==> WeaklyTopological(byId, out)
  {
    forall i, d | 0 <= i < |out| && d in out[i].dependsOn && d in byId
      ensures StandsBy(out, d, i) <==> d in Ids(out[..i + 1])
    {
      StandsByIff(out, d, i);
    }
  }

  /** Along a path, positions in a weakly topological listing never go up. */
  lemma {:induction false} PathGoesDown(byId: Catalog, out: seq<Scenario>, path: seq<string>, i: nat, j: nat)
    requires Sound(byId, {}, out) && WeaklyTopological(byId, out)
    requires |path| > 0 && i < |out| && j < |out| && IsPath(byId, path, out[i].id, out[j].id)
    ensures j <= i
    decreases |path|
  {
    if |path| == 1 {
    } else {
      assert Edge(byId, path[0], path[1]);
      assert StandsBy(out, path[1], i);
      var k :| 0 <= k <= i && k < |out| && out[k].id == path[1];
      assert IsPath(byId, path[1..], out[k].id, out[j].id);
      PathGoesDown(byId, out, path[1..], k, j);
    }
  }

  lemma ReachingGoesDown(byId: Catalog, out: seq<Scenario>, i: nat, j: nat)
    requires Sound(byId, {}, out) && WeaklyTopological(byId, out) && i < |out| && j < |out|
    requires Reaches(byId, out[i].id, out[j].id)
    ensures j <= i
  {
    var path :| IsPath(byId, path, out[i].id, out[j].id);
    PathGoesDown(byId, out, path, i, j);
  }

  /** The output is topologically sorted exactly when the dependencies have no cycle. */
  lemma TopologicalIffAcyclic(scenarios: seq<Scenario>)
    ensures Topological(ById(scenarios), Order(scenarios)) <==> Acyclic(ById(scenarios))
  {
    var byId, out := ById(scenarios), Order(scenarios);
    VisitAllSound(byId, {}, [], IdsOf(scenarios));
    OrderIsComplete(scenarios);
    if Acyclic(byId) {
      OrderRespectsDependencies(scenarios);
      forall i, d | 0 <= i < |out| && d in out[i].dependsOn && d in byId ensures StandsBefore(out, d, i) {
        assert Edge(byId, out[i].id, d);
      }
    }
    if Topological(byId, out) {
      TopologicalIsAcyclic(byId, out);
    }
  }

  lemma TopologicalIsAcyclic(byId: Catalog, out: seq<Scenario>)
    requires Sound(byId, {}, out) && Ids(out) == byId.Keys && Topological(byId, out)
    ensures Acyclic(byId)
  {
    forall i, d | 0 <= i < |out| && d in out[i].dependsOn && d in byId ensures StandsBy(out, d, i) {
      assert StandsBefore(out, d, i);
    }
    forall a, b | Edge(byId, a, b) ensures !Reaches(byId, b, a) {
      var i := PositionOf(out, a);
      assert StandsBefore(out, b, i);
      var j :| 0 <= j < i && out[j].id == b;
      if Reaches(byId, b, a) { ReachingGoesDown(byId, out, j, i); }
    }
  }

  lemma PositionOf(out: seq<Scenario>, id: string) returns (i: nat)
    requires id in Ids(out)
    ensures i < |out| && out[i].id == id
  {
    i :| 0 <= i < |out| && out[i].id == id;
  }

  /** From an empty stack, the visited node is pushed last, after every dependency it lacked. */
  lemma RootVisit(byId: Catalog, out: seq<Scenario>, id: string)
    requires WellFormed(byId) && Sound(byId, {}, out) && id in byId && id !in Ids(out)
    ensures var r := Visit(byId, {}, out, id);
      && |r| > |out| && r[|r| - 1] == byId[id]
      && (forall d :: d in byId[id].dependsOn && d in byId ==> d in Ids(r))
      && ((forall d :: d in byId[id].dependsOn && d in byId ==> d in Ids(out) + {id}) ==> r == out + [byId[id]])
  {
    var deps := byId[id].dependsOn;
    assert {} + {id} == {id};
    VisitAllSound(byId, {id}, out, deps);
    var inner := VisitAll(byId, {id}, out, deps);
    var r := inner + [byId[id]];
    assert r == Visit(byId, {}, out, id);
    assert byId[id] in r;
    IdsGrow(inner, r);
    if forall d :: d in deps && d in byId ==> d in Ids(out) + {id} {
      NothingLeftToVisit(byId, {id}, out, deps);
    }
  }

  lemma {:induction false} NothingLeftToVisit(byId: Catalog, visiting: set<string>, out: seq<Scenario>,
                                              ids: seq<string>)
    requires forall d :: d in ids && d in byId ==> d in Ids(out) + visiting
    ensures VisitAll(byId, visiting, out, ids) == out
    decreases |ids|
  {
    if ids == [] {
    } else {
      NothingLeftToVisit(byId, visiting, out, ids[..|ids| - 1]);
    }
  }

  ghost predicate Differs(out: seq<Scenario>, scenarios: seq<Scenario>) {
    exists k :: 0 <= k < |out| && k < |scenarios| && out[k] != scenarios[k]
  }

  /** The catalog holds exactly these scenarios under their ids. */
  ghost predicate Covers(byId: Catalog, scenarios: seq<Scenario>) {
    WellFormed(byId) && forall i :: 0 <= i < |scenarios| ==>
      scenarios[i].id in byId && byId[scenarios[i].id] == scenarios[i]
  }

  lemma VisitAllSnoc(byId: Catalog, visiting: set<string>, out: seq<Scenario>, ids: seq<string>, id: string)
    ensures VisitAll(byId, visiting, out, ids + [id]) == Visit(byId, visiting, VisitAll(byId, visiting, out, ids), id)
  {
    assert (ids + [id])[..|ids|] == ids;
  }

  /** After the first `n` roots the output equals the input so far, or it already differs for good. */
  lemma {:induction false} PrefixUnchanged(byId: Catalog, scenarios: seq<Scenario>, ids: seq<string>, n: nat)
    requires DistinctIds(scenarios) && Covers(byId, scenarios) && n <= |scenarios|
    requires |ids| == |scenarios| && forall i :: 0 <= i < |ids| ==> ids[i] == scenarios[i].id
    ensures var r := VisitAll(byId, {}, [], ids[..n]);
      if InDependencyOrder(byId, scenarios[..n]) then r == scenarios[..n] else Differs(r, scenarios)
    decreases n
  {
    if n == 0 {
    } else {
      var m := n - 1;
      var s, mid := scenarios[m], VisitAll(byId, {}, [], ids[..m]);
      PrefixUnchanged(byId, scenarios, ids, m);
      assert ids[..n] == ids[..m] + [s.id];
      VisitAllSnoc(byId, {}, [], ids[..m], s.id);
      VisitAllSound(byId, {}, [], ids[..m]);
      VisitSound(byId, {}, mid, s.id);
      if InDependencyOrder(byId, scenarios[..m]) {
        RootVisit(byId, scenarios[..m], s.id);
        RootUnchanged(byId, scenarios, m, Visit(byId, {}, mid, s.id));
      } else {
        PrefixOfOrder(byId, scenarios, n);
        var k :| 0 <= k < |mid| && k < |scenarios| && mid[k] != scenarios[k];
        assert Visit(byId, {}, mid, s.id)[k] == mid[k];
      }
    }
  }

  lemma RootUnchanged(byId: Catalog, scenarios: seq<Scenario>, m: nat, r: seq<Scenario>)
    requires DistinctIds(scenarios) && m < |scenarios| && InDependencyOrder(byId, scenarios[..m])
    requires DistinctIds(r) && scenarios[..m] <= r && |r| > m && r[|r| - 1] == scenarios[m]
    requires forall d :: d in scenarios[m].dependsOn && d in byId ==> d in Ids(r)
    requires (forall d :: d in scenarios[m].dependsOn && d in byId ==>
      d in Ids(scenarios[..m]) + {scenarios[m].id}) ==> r == scenarios[..m] + [scenarios[m]]
    ensures if InDependencyOrder(byId, scenarios[..m + 1]) then r == scenarios[..m + 1]
      else Differs(r, scenarios)
  {
    var mid, s := scenarios[..m], scenarios[m];
    LastInOrder(byId, scenarios, m + 1);
    assert mid + [s] == scenarios[..m + 1];
    if !InDependencyOrder(byId, scenarios[..m + 1]) {
      var d :| d in s.dependsOn && d in byId && d !in Ids(mid) + {s.id};
      LongerOutput(mid, s, r, d);
      assert r[m].id != r[|r| - 1].id;
      assert r[m] != scenarios[m];
    }
  }

  /** An output that also holds another id is longer than the prefix and the root. */
  lemma LongerOutput(mid: seq<Scenario>, s: Scenario, r: seq<Scenario>, d: string)
    requires mid <= r && |r| > |mid| && r[|r| - 1] == s && d in Ids(r) && d !in Ids(mid) + {s.id}
    ensures |r| > |mid| + 1
  {
    var t :| t in r && t.id == d;
    var j :| 0 <= j < |r| && r[j] == t;
    assert forall i :: 0 <= i < |mid| ==> r[i] == mid[i] && mid[i].id in Ids(mid);
  }

  lemma PrefixOfOrder(byId: Catalog, scenarios: seq<Scenario>, n: nat)
    requires 0 < n <= |scenarios| && !InDependencyOrder(byId, scenarios[..n - 1])
    ensures !InDependencyOrder(byId, scenarios[..n])
  {
    var i, d :| 0 <= i < n - 1 && d in scenarios[..n - 1][i].dependsOn && d in byId
      && d !in Ids(scenarios[..n - 1][..i + 1]);
    assert scenarios[..n][..i + 1] == scenarios[..n - 1][..i + 1];
    assert scenarios[..n][i] == scenarios[i];
  }

  lemma LastInOrder(byId: Catalog, scenarios: seq<Scenario>, n: nat)
    requires 0 < n <= |scenarios| && InDependencyOrder(byId, scenarios[..n - 1])
    ensures InDependencyOrder(byId, scenarios[..n]) <==>
      (forall d :: d in scenarios[n - 1].dependsOn && d in byId ==>
        d in Ids(scenarios[..n - 1]) + {scenarios[n - 1].id})
  {
    var all, init, last := scenarios[..n], scenarios[..n - 1], scenarios[n - 1];
    assert all == init + [last];
    assert Ids(all) == Ids(init) + {last.id} by {
      assert last in all;
      assert forall s :: s in all <==> s in init || s == last;
    }
    assert all[..n] == all;
    forall i, d | 0 <= i < n - 1 && d in all[i].dependsOn && d in byId ensures d in Ids(all[..i + 1]) {
      assert all[..i + 1] == init[..i + 1];
      assert all[i] == init[i];
    }
    if InDependencyOrder(byId, all) {
      assert all[n - 1] == last && all[..n - 1 + 1] == all;
    }
  }

  /** The list comes back unchanged exactly when it already is in dependency order. */
  lemma UnchangedIffInOrder(scenarios: seq<Scenario>)
    requires DistinctIds(scenarios)
    ensures Order(scenarios) == scenarios <==> InDependencyOrder(ById(scenarios), scenarios)
  {
    var byId, ids := ById(scenarios), IdsOf(scenarios);
    ByIdOfDistinct(scenarios);
    PrefixUnchanged(byId, scenarios, ids, |scenarios|);
    assert ids[..|scenarios|] == ids && scenarios[..|scenarios|] == scenarios;
  }

  /** Ordering does not change the lookup table. */
  lemma OrderKeepsTable(scenarios: seq<Scenario>)
    ensures ById(Order(scenarios)) == ById(scenarios)
  {
    var byId, out := ById(scenarios), Order(scenarios);
    OrderIsComplete(scenarios);
    VisitAllSound(byId, {}, [], IdsOf(scenarios));
    forall id | id in byId ensures ById(out)[id] == byId[id] {
      var i :| 0 <= i < |out| && out[i] == ById(out)[id];
    }
  }

  /** No two different scenarios lead back to each other; a scenario may depend on itself. */
  ghost predicate NoMutualCycle(byId: Catalog) {
    forall a, b :: Edge(byId, a, b) && a != b ==> !Reaches(byId, b, a)
  }

  lemma MutualFreeIsInOrder(scenarios: seq<Scenario>)
    requires NoMutualCycle(ById(scenarios))
    ensures InDependencyOrder(ById(scenarios), Order(scenarios))
  {
    var byId, out := ById(scenarios), Order(scenarios);
    VisitAllSound(byId, {}, [], IdsOf(scenarios));
    OrderRespectsDependencies(scenarios);
    forall i, d | 0 <= i < |out| && d in out[i].dependsOn && d in byId ensures StandsBy(out, d, i) {
      if d != out[i].id {
        assert Edge(byId, out[i].id, d);
        assert StandsBefore(out, d, i);
      }
    }
    InOrderIffWeaklyTopological(byId, out);
  }

  lemma InOrderIsMutualFree(byId: Catalog, out: seq<Scenario>)
    requires Sound(byId, {}, out) && Ids(out) == byId.Keys && InDependencyOrder(byId, out)
    ensures NoMutualCycle(byId)
  {
    InOrderIffWeaklyTopological(byId, out);
    forall a, b | Edge(byId, a, b) && a != b ensures !Reaches(byId, b, a) {
      var i := PositionOf(out, a);
      assert StandsBy(out, b, i);
      var j :| 0 <= j <= i && j < |out| && out[j].id == b;
      if Reaches(byId, b, a) { ReachingGoesDown(byId, out, j, i); }
    }
  }

  /**
   * Ordering twice is ordering once exactly when no two different scenarios lead back to each other: a cycle
   * through two or more of them is undone and made anew, while a scenario that depends on itself does no harm.
   */
  lemma IdempotentIffNoMutualCycle(scenarios: seq<Scenario>)
    ensures Order(Order(scenarios)) == Order(scenarios) <==> NoMutualCycle(ById(scenarios))
  {
    var byId, out := ById(scenarios), Order(scenarios);
    OrderIsComplete(scenarios);
    OrderKeepsTable(scenarios);
    UnchangedIffInOrder(out);
    VisitAllSound(byId, {}, [], IdsOf(scenarios));
    if NoMutualCycle(byId) { MutualFreeIsInOrder(scenarios); }
    if InDependencyOrder(byId, out) { InOrderIsMutualFree(byId, out); }
  }

  /** With a cycle, ordering twice may swap the two members of the cycle back. */
  lemma CycleIsNotIdempotent(a: Scenario, b: Scenario)
    requires a.id != b.id && a.dependsOn == [b.id] && b.dependsOn == [a.id]
    ensures Order([a, b]) == [b, a] && Order([b, a]) == [a, b]
  {
    TwoCycle(a, b);
    TwoCycle(b, a);
  }

  lemma TwoCycle(a: Scenario, b: Scenario)
    requires a.id != b.id && a.dependsOn == [b.id] && b.dependsOn == [a.id]
    ensures Order([a, b]) == [b, a]
  {
    var byId := ById([a, b]);
    assert [a, b][..1] == [a];
    assert byId == map[a.id := a, b.id := b];
    var ids := IdsOf([a, b]);
    assert ids == [a.id, b.id] && ids[..1] == [a.id] && ids[..1][..0] == [];
    assert {} + {a.id} == {a.id};
    calc {
      Visit(byId, {a.id}, [], b.id);
      VisitAll(byId, {a.id} + {b.id}, [], [a.id]) + [b];
      { assert [a.id][..0] == []; }
      [b];
    }
    calc {
      Visit(byId, {}, [], a.id);
      VisitAll(byId, {a.id}, [], [b.id]) + [a];
      { assert [b.id][..0] == []; }
      [b, a];
    }
    assert a in [b, a] && b in [b, a];
    assert VisitAll(byId, {}, [], ids[..1]) == [b, a];
    assert VisitAll(byId, {}, [], ids) == [b, a];
  }
}
