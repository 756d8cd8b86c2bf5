// The goal dependency check of brain/goal_decomposition.py: Kahn's algorithm
// with an in-degree table and a frontier stack.
module GoalDependencies {
  import opened Foundation
  import opened Digraphs

  datatype GoalEdge = GoalEdge(prerequisite: Id, dependent: Id)
  datatype Dependency = Dependency(edge: GoalEdge, rationale: string)

  datatype DependencyError =
    | DuplicateDependency | UnknownPrerequisite | UnknownDependent | SelfDependency | CyclicDependencies

  function EdgesOf(deps: seq<Dependency>): (r: seq<GoalEdge>)
    ensures |r| == |deps|
  {
    if deps == [] then [] else EdgesOf(deps[..|deps| - 1]) + [deps[|deps| - 1].edge]
  }

  function Prerequisites(edges: set<GoalEdge>, v: Id): set<Id> {
    set e | e in edges && e.dependent == v :: e.prerequisite
  }

  function NeedGraph(edges: set<GoalEdge>, ids: set<Id>): map<Id, set<Id>> {
    map v | v in ids :: Prerequisites(edges, v)
  }

  function EdgeError(seen: set<GoalEdge>, e: GoalEdge, ids: set<Id>): Option<DependencyError> {
    if e in seen then Some(DuplicateDependency)
    else if e.prerequisite !in ids then Some(UnknownPrerequisite)
    else if e.dependent !in ids then Some(UnknownDependent)
    else if e.prerequisite == e.dependent then Some(SelfDependency)
    else None
  }

  function FirstEdgeError(edges: seq<GoalEdge>, ids: set<Id>): Option<DependencyError> {
    if edges == [] then None
    else
      var earlier := edges[..|edges| - 1];
      if FirstEdgeError(earlier, ids).Some? then FirstEdgeError(earlier, ids)
      else EdgeError(Elems(earlier), edges[|edges| - 1], ids)
  }

  predicate KnownEdges(edges: set<GoalEdge>, ids: set<Id>) {
    forall e :: e in edges ==> e.prerequisite in ids && e.dependent in ids && e.prerequisite != e.dependent
  }

  lemma {:induction false} NoEdgeErrorIff(edges: seq<GoalEdge>, ids: set<Id>)
    ensures FirstEdgeError(edges, ids) == None <==> Distinct(edges) && KnownEdges(Elems(edges), ids)
  {
    if edges != [] {
      var n := |edges| - 1;
      NoEdgeErrorIff(edges[..n], ids);
      DistinctLast(edges);
      assert Elems(edges) == Elems(edges[..n]) + {edges[n]};
    }
  }

  lemma {:induction false} EdgeErrorStays(edges: seq<GoalEdge>, ids: set<Id>, i: nat)
    requires i <= |edges| && FirstEdgeError(edges[..i], ids).Some?
    ensures FirstEdgeError(edges, ids) == FirstEdgeError(edges[..i], ids)
    decreases |edges|
  {
    if i == |edges| {
      assert edges[..i] == edges;
    } else {
      var earlier := edges[..|edges| - 1];
      assert earlier[..i] == edges[..i];
      EdgeErrorStays(earlier, ids, i);
    }
  }

  // ---------- the edge tables ----------

  ghost predicate OutgoingOk(outgoing: map<Id, seq<Id>>, edges: set<GoalEdge>, ids: set<Id>) {
    && outgoing.Keys == ids
    && (forall u :: u in ids ==> Distinct(outgoing[u]))
    && forall u, v :: u in ids ==> (v in outgoing[u] <==> GoalEdge(u, v) in edges)
  }

  ghost predicate IndegreeOk(indegree: map<Id, int>, edges: set<GoalEdge>, ids: set<Id>) {
    indegree.Keys == ids && forall v {:trigger indegree[v]} :: v in ids ==> indegree[v] == |Prerequisites(edges, v)|
  }

  lemma OutgoingAppend(outgoing: map<Id, seq<Id>>, edges: set<GoalEdge>, e: GoalEdge, ids: set<Id>)
    requires OutgoingOk(outgoing, edges, ids) && e !in edges && e.prerequisite in ids
    ensures OutgoingOk(outgoing[e.prerequisite := outgoing[e.prerequisite] + [e.dependent]], edges + {e}, ids)
  {
    assert GoalEdge(e.prerequisite, e.dependent) == e;
    DistinctAppend(outgoing[e.prerequisite], e.dependent);
    var longer := outgoing[e.prerequisite] + [e.dependent];
    forall v ensures v in longer <==> v in outgoing[e.prerequisite] || v == e.dependent {
      if v == e.dependent { assert longer[|longer| - 1] == v; }
    }
  }

  lemma IndegreeAppend(indegree: map<Id, int>, edges: set<GoalEdge>, e: GoalEdge, ids: set<Id>)
    requires IndegreeOk(indegree, edges, ids) && e !in edges && e.dependent in ids
    ensures IndegreeOk(indegree[e.dependent := indegree[e.dependent] + 1], edges + {e}, ids)
  {
    var next := indegree[e.dependent := indegree[e.dependent] + 1];
    forall v {:trigger next[v]} | v in ids ensures next[v] == |Prerequisites(edges + {e}, v)| {
      PrerequisitesAdd(edges, e, v);
    }
  }

  lemma PrerequisitesAdd(edges: set<GoalEdge>, e: GoalEdge, v: Id)
    requires e !in edges
    ensures |Prerequisites(edges + {e}, v)| == |Prerequisites(edges, v)| + (if v == e.dependent then 1 else 0)
  {
    var before, after := Prerequisites(edges, v), Prerequisites(edges + {e}, v);
    if v == e.dependent {
      forall d | d in edges && d.dependent == v ensures d.prerequisite != e.prerequisite {
        assert d != e;
      }
      assert after == before + {e.prerequisite};
    } else {
      assert after == before;
    }
  }

  method BuildTables(deps: seq<Dependency>, ids: set<Id>)
    returns (error: Option<DependencyError>, outgoing: map<Id, seq<Id>>, indegree: map<Id, int>)
    ensures error == FirstEdgeError(EdgesOf(deps), ids)
    ensures error == None ==>
      OutgoingOk(outgoing, Elems(EdgesOf(deps)), ids) && IndegreeOk(indegree, Elems(EdgesOf(deps)), ids)
  {
    ghost var all := EdgesOf(deps);
    var edges: set<GoalEdge> := {};
    outgoing := map v | v in ids :: [];
    indegree := map v | v in ids :: 0;
    error := None;
    EmptyTables(ids);
    var i := 0;
    while i < |deps|
      invariant 0 <= i <= |deps|
      invariant error == None && FirstEdgeError(all[..i], ids) == None
      invariant edges == Elems(all[..i])
      invariant OutgoingOk(outgoing, edges, ids) && IndegreeOk(indegree, edges, ids)
    {
      var e := deps[i].edge;
      EdgeAt(deps, i);
      NextEdge(all, ids, i);
      error := EdgeError(edges, e, ids);
      if error.Some? {
        EdgeErrorStays(all, ids, i + 1);
        return;
      }
      OutgoingAppend(outgoing, edges, e, ids);
      IndegreeAppend(indegree, edges, e, ids);
      edges := edges + {e};
      outgoing := outgoing[e.prerequisite := outgoing[e.prerequisite] + [e.dependent]];
      indegree := indegree[e.dependent := indegree[e.dependent] + 1];
      i := i + 1;
    }
    assert all[..i] == all;
  }

  lemma EmptyTables(ids: set<Id>)
    ensures OutgoingOk(map v | v in ids :: [], {}, ids)
    ensures IndegreeOk(map v | v in ids :: 0, {}, ids)
  {
    forall v ensures Prerequisites({}, v) == {} { }
  }

  lemma NextEdge(edges: seq<GoalEdge>, ids: set<Id>, i: nat)
    requires i < |edges| && FirstEdgeError(edges[..i], ids) == None
    ensures FirstEdgeError(edges[..i + 1], ids) == EdgeError(Elems(edges[..i]), edges[i], ids)
    ensures Elems(edges[..i + 1]) == Elems(edges[..i]) + {edges[i]}
  {
    assert edges[..i + 1][..i] == edges[..i] && edges[..i + 1] == edges[..i] + [edges[i]];
  }

  lemma {:induction false} EdgeAt(deps: seq<Dependency>, i: nat)
    requires i < |deps|
    ensures EdgesOf(deps)[i] == deps[i].edge
  {
    if i < |deps| - 1 {
      EdgeAt(deps[..|deps| - 1], i);
    }
  }

  // ---------- Kahn's loop ----------

  // `left[v]` counts the needs of v that are not in `done`.
  ghost predicate Counts(left: map<Id, int>, g: map<Id, set<Id>>, done: set<Id>) {
    left.Keys == g.Keys && forall v {:trigger left[v]} :: v in g ==> left[v] == |g[v] - done|
  }

  ghost predicate FrontierOk(frontier: seq<Id>, left: map<Id, int>, done: set<Id>) {
    && Distinct(frontier)
    && forall v {:trigger v in frontier} {:trigger left[v]} ::
         v in frontier <==> v in left && left[v] == 0 && v !in done
  }

  method ZeroDegree(indegree: map<Id, int>) returns (frontier: seq<Id>)
    ensures FrontierOk(frontier, indegree, {})
  {
    frontier := [];
    var rest := indegree.Keys;
    while rest != {}
      invariant rest <= indegree.Keys && Distinct(frontier)
      invariant forall v :: v in frontier <==> v in indegree && v !in rest && indegree[v] == 0
    {
      var v :| v in rest;
      if indegree[v] == 0 {
        DistinctAppend(frontier, v);
        frontier := frontier + [v];
      }
      rest := rest - {v};
    }
  }

  lemma OneNeedLess(need: set<Id>, done: set<Id>, u: Id)
    requires u !in done
    ensures u in need ==> |need - (done + {u})| == |need - done| - 1
    ensures u !in need ==> |need - (done + {u})| == |need - done|
  {
    if u in need {
      assert need - done == (need - (done + {u})) + {u};
    } else {
      assert need - done == need - (done + {u});
    }
  }

  // `left` while the first dependents of `current` have been handled.
  ghost predicate PartCounts(left: map<Id, int>, g: map<Id, set<Id>>, done: set<Id>, current: Id, handled: set<Id>) {
    && left.Keys == g.Keys
    && forall v {:trigger left[v]} :: v in g ==>
         left[v] == if v in handled then |g[v] - (done + {current})| else |g[v] - done|
  }

  // The inner loop: every dependent of `current` loses one open need.
  method Release(current: Id, dependents: seq<Id>, left0: map<Id, int>, frontier0: seq<Id>,
                 ghost g: map<Id, set<Id>>, ghost done: set<Id>)
    returns (left: map<Id, int>, frontier: seq<Id>)
    requires current in g && current !in done
    requires Distinct(dependents)
    requires forall v :: v in dependents <==> v in g && current in g[v]
    requires Counts(left0, g, done)
    requires FrontierOk(frontier0, left0, done + {current})
    requires forall v :: v in dependents ==> v !in done + {current}
    ensures Counts(left, g, done + {current})
    ensures FrontierOk(frontier, left, done + {current})
  {
    left, frontier := left0, frontier0;
    var k := 0;
    while k < |dependents|
      invariant 0 <= k <= |dependents|
      invariant PartCounts(left, g, done, current, Elems(dependents[..k]))
      invariant FrontierOk(frontier, left, done + {current})
    {
      var v := dependents[k];
      NextDependent(dependents, k);
      assert v in dependents;
      ReleaseOne(left, frontier, g, done, current, Elems(dependents[..k]), v);
      left := left[v := left[v] - 1];
      if left[v] == 0 {
        frontier := frontier + [v];
      }
      k := k + 1;
    }
    assert dependents[..k] == dependents;
    AllReleased(left, g, done, current, Elems(dependents));
  }

  lemma NextDependent(dependents: seq<Id>, k: nat)
    requires k < |dependents| && Distinct(dependents)
    ensures dependents[k] !in Elems(dependents[..k])
    ensures Elems(dependents[..k + 1]) == Elems(dependents[..k]) + {dependents[k]}
  {
    assert dependents[..k + 1] == dependents[..k] + [dependents[k]];
  }

  lemma ReleaseOne(left: map<Id, int>, frontier: seq<Id>, g: map<Id, set<Id>>, done: set<Id>, current: Id,
                   handled: set<Id>, v: Id)
    requires v in g && current in g[v] && current !in done && v !in handled && v !in done + {current}
    requires PartCounts(left, g, done, current, handled)
    requires FrontierOk(frontier, left, done + {current})
    ensures var next := left[v := left[v] - 1];
            && PartCounts(next, g, done, current, handled + {v})
            && FrontierOk(if next[v] == 0 then frontier + [v] else frontier, next, done + {current})
  {
    OneNeedLess(g[v], done, current);
    assert left[v] > 0;
    ReleaseFrontier(left, frontier, done + {current}, v);
  }

  lemma ReleaseFrontier(left: map<Id, int>, frontier: seq<Id>, done: set<Id>, v: Id)
    requires v in left && left[v] > 0 && v !in done && FrontierOk(frontier, left, done)
    ensures var next := left[v := left[v] - 1];
            FrontierOk(if next[v] == 0 then frontier + [v] else frontier, next, done)
  {
    assert v !in frontier;
    DistinctAppend(frontier, v);
    assert forall u :: u in frontier + [v] <==> u in frontier || u == v;
  }

  lemma AllReleased(left: map<Id, int>, g: map<Id, set<Id>>, done: set<Id>, current: Id, handled: set<Id>)
    requires current !in done && PartCounts(left, g, done, current, handled)
    requires forall v :: v in handled <==> v in g && current in g[v]
    ensures Counts(left, g, done + {current})
  {
    forall v {:trigger left[v]} | v in g ensures left[v] == |g[v] - (done + {current})| {
      OneNeedLess(g[v], done, current);
    }
  }

  ghost function DagError(deps: seq<Dependency>, ids: set<Id>): Option<DependencyError> {
    if FirstEdgeError(EdgesOf(deps), ids).Some? then FirstEdgeError(EdgesOf(deps), ids)
    else if !Acyclic(NeedGraph(Elems(EdgesOf(deps)), ids)) then Some(CyclicDependencies)
    else None
  }

  lemma OpenNeed(need: set<Id>, nodes: set<Id>, done: set<Id>)
    requires need <= nodes && |need - done| != 0
    ensures need * (nodes - done) != {}
  {
    var u :| u in need - done;
    assert u in need * (nodes - done);
  }

  lemma NothingLeftIsCycle(g: map<Id, set<Id>>, left: map<Id, int>, done: set<Id>)
    requires Counts(left, g, done) && FrontierOk([], left, done)
    requires forall v {:trigger g[v]} :: v in g ==> g[v] <= g.Keys
    requires done < g.Keys
    ensures exists c :: IsCycle(g, c) && Elems(c) <= g.Keys - done
  {
    var open := g.Keys - done;
    var v :| v in g.Keys && v !in done;
    forall v {:trigger g[v]} | v in open ensures g[v] * open != {} {
      assert left[v] != 0;
      OpenNeed(g[v], g.Keys, done);
    }
    assert v in open;
    StuckSetHasCycle(g, open);
  }

  // The two tables describe the graph g.
  ghost predicate Matches(outgoing: map<Id, seq<Id>>, g: map<Id, set<Id>>) {
    && outgoing.Keys == g.Keys
    && (forall u {:trigger outgoing[u]} :: u in g ==> Distinct(outgoing[u]))
    && forall u, v {:trigger v in outgoing[u]} :: u in g ==> (v in outgoing[u] <==> v in g && u in g[v])
  }

  ghost predicate ClosedGraph(g: map<Id, set<Id>>) {
    forall v {:trigger g[v]} :: v in g ==> g[v] <= g.Keys
  }

  ghost predicate KahnState(g: map<Id, set<Id>>, left: map<Id, int>, frontier: seq<Id>, order: seq<Id>) {
    NeedsFirst(g, order) && Counts(left, g, Elems(order)) && FrontierOk(frontier, left, Elems(order))
  }

  lemma KahnStep(g: map<Id, set<Id>>, outgoing: map<Id, seq<Id>>, left: map<Id, int>, frontier: seq<Id>, order: seq<Id>)
    requires Matches(outgoing, g) && KahnState(g, left, frontier, order) && frontier != []
    ensures var current := frontier[|frontier| - 1];
            && current in g && current !in order
            && (forall v :: v in outgoing[current] ==> v !in Elems(order) + {current})
            && FrontierOk(frontier[..|frontier| - 1], left, Elems(order) + {current})
            && NeedsFirst(g, order + [current]) && Elems(order + [current]) == Elems(order) + {current}
  {
    var current := frontier[|frontier| - 1];
    FrontierHasNoNeeds(frontier, left, g, Elems(order), current);
    TakeFromFrontier(frontier, left, Elems(order));
    forall v | v in outgoing[current] ensures v !in Elems(order) + {current} {
      DependentNotDone(g, order, current, v);
    }
    NeedsFirstAppend(g, order, current);
  }

  // One round: pop a node, count it, release its dependents.
  method VisitNext(outgoing: map<Id, seq<Id>>, left0: map<Id, int>, frontier0: seq<Id>, ghost g: map<Id, set<Id>>,
                   ghost order: seq<Id>)
    returns (left: map<Id, int>, frontier: seq<Id>, current: Id)
    requires Matches(outgoing, g) && KahnState(g, left0, frontier0, order) && frontier0 != []
    ensures KahnState(g, left, frontier, order + [current])
    ensures |order| < |g.Keys|
  {
    current := frontier0[|frontier0| - 1];
    KahnStep(g, outgoing, left0, frontier0, order);
    left, frontier := Release(current, outgoing[current], left0, frontier0[..|frontier0| - 1], g, Elems(order));
    OrderFits(g, order + [current]);
  }

  // What the loop keeps: the tables describe g, and the state is Kahn's.
  ghost predicate KahnInv(outgoing: map<Id, seq<Id>>, g: map<Id, set<Id>>, left: map<Id, int>, frontier: seq<Id>,
                          order: seq<Id>)
  {
    Matches(outgoing, g) && KahnState(g, left, frontier, order)
  }

  method Advance(outgoing: map<Id, seq<Id>>, left0: map<Id, int>, frontier0: seq<Id>, ghost g: map<Id, set<Id>>,
                 ghost order: seq<Id>)
    returns (left: map<Id, int>, frontier: seq<Id>, ghost next: seq<Id>)
    requires KahnInv(outgoing, g, left0, frontier0, order) && frontier0 != []
    ensures KahnInv(outgoing, g, left, frontier, next)
    ensures |next| == |order| + 1 && |order| < |g.Keys|
  {
    var current;
    left, frontier, current := VisitNext(outgoing, left0, frontier0, g, order);
    next := order + [current];
  }

  // Kahn's loop proper.
  method VisitAll(outgoing: map<Id, seq<Id>>, indegree0: map<Id, int>, frontier0: seq<Id>, ghost g: map<Id, set<Id>>)
    returns (visited: nat, ghost left: map<Id, int>, ghost order: seq<Id>)
    requires KahnInv(outgoing, g, indegree0, frontier0, [])
    ensures visited == |order| && KahnInv(outgoing, g, left, [], order)
  {
    var indegree, frontier := indegree0, frontier0;
    visited, order := 0, [];
    while frontier != []
      invariant visited == |order| && KahnInv(outgoing, g, indegree, frontier, order)
      decreases |g.Keys| - visited
    {
      indegree, frontier, order := Advance(outgoing, indegree, frontier, g, order);
      visited := visited + 1;
    }
    left := indegree;
  }

  // `visited` reaches the number of nodes exactly when the graph has no cycle;
  // otherwise a cycle runs through nodes never visited.
  method CountOrdered(outgoing: map<Id, seq<Id>>, indegree: map<Id, int>, ghost g: map<Id, set<Id>>)
    returns (visited: nat)
    requires ClosedGraph(g) && Matches(outgoing, g) && Counts(indegree, g, {})
    ensures visited <= |g.Keys|
    ensures visited == |g.Keys| <==> Acyclic(g)
  {
    ghost var left, order;
    var frontier := ZeroDegree(indegree);
    KahnStart(outgoing, g, indegree, frontier);
    visited, left, order := VisitAll(outgoing, indegree, frontier, g);
    KahnCount(outgoing, g, left, order);
  }

  lemma KahnStart(outgoing: map<Id, seq<Id>>, g: map<Id, set<Id>>, left: map<Id, int>, frontier: seq<Id>)
    requires Matches(outgoing, g) && Counts(left, g, {}) && FrontierOk(frontier, left, {})
    ensures KahnInv(outgoing, g, left, frontier, [])
  {
    var none: seq<Id> := [];
    assert Elems(none) == {};
  }

  lemma KahnCount(outgoing: map<Id, seq<Id>>, g: map<Id, set<Id>>, left: map<Id, int>, order: seq<Id>)
    requires ClosedGraph(g) && KahnInv(outgoing, g, left, [], order)
    ensures |order| <= |g.Keys| && (|order| == |g.Keys| <==> Acyclic(g))
  {
    KahnVerdict(g, left, order);
  }

  lemma KahnVerdict(g: map<Id, set<Id>>, left: map<Id, int>, order: seq<Id>)
    requires ClosedGraph(g) && KahnState(g, left, [], order)
    ensures |order| <= |g.Keys|
    ensures |order| == |g.Keys| <==> Acyclic(g)
    ensures |order| < |g.Keys| ==> exists c :: IsCycle(g, c) && Elems(c) <= g.Keys - Elems(order)
  {
    OrderFits(g, order);
    if |order| != |g.Keys| {
      KahnStuck(g, left, order);
    } else {
      OrderImpliesAcyclic(g, order);
    }
  }

  lemma KahnStuck(g: map<Id, set<Id>>, left: map<Id, int>, order: seq<Id>)
    requires ClosedGraph(g) && KahnState(g, left, [], order)
    requires Elems(order) <= g.Keys && Elems(order) != g.Keys
    ensures !Acyclic(g)
    ensures exists c :: IsCycle(g, c) && Elems(c) <= g.Keys - Elems(order)
  {
    NothingLeftIsCycle(g, left, Elems(order));
  }

  lemma FrontierHasNoNeeds(frontier: seq<Id>, left: map<Id, int>, g: map<Id, set<Id>>, done: set<Id>, v: Id)
    requires FrontierOk(frontier, left, done) && Counts(left, g, done) && v in frontier
    ensures v in g && v !in done && g[v] <= done
  {
    assert left[v] == 0;
    assert g[v] - done == {};
    forall u | u in g[v] ensures u in done {
      assert u !in g[v] - done;
    }
  }

  lemma OrderFits(g: map<Id, set<Id>>, order: seq<Id>)
    requires NeedsFirst(g, order)
    ensures Elems(order) <= g.Keys && |order| <= |g.Keys|
    ensures |order| == |g.Keys| <==> Elems(order) == g.Keys
  {
    NeedsFirstDistinct(g, order);
    DistinctCard(order);
    SubsetCard(Elems(order), g.Keys);
  }

  lemma TakeFromFrontier(frontier: seq<Id>, left: map<Id, int>, done: set<Id>)
    requires frontier != [] && FrontierOk(frontier, left, done)
    ensures FrontierOk(frontier[..|frontier| - 1], left, done + {frontier[|frontier| - 1]})
  {
    var n := |frontier| - 1;
    assert frontier == frontier[..n] + [frontier[n]];
    assert forall v :: v in frontier <==> v in frontier[..n] || v == frontier[n];
  }

  // Whatever needs a node that is still open is open itself.
  lemma DependentNotDone(g: map<Id, set<Id>>, order: seq<Id>, current: Id, v: Id)
    requires NeedsFirst(g, order) && current in g && current !in order && v in g && current in g[v]
    requires g[current] <= Elems(order)
    ensures v !in order && v != current
  {
    forall i | 0 <= i < |order| ensures order[i] != v {
      NeedsFirstAt(g, order, i);
      assert current !in Elems(order[..i]);
    }
  }

  // ---------- the whole check ----------

  lemma TablesMatch(outgoing: map<Id, seq<Id>>, indegree: map<Id, int>, edges: set<GoalEdge>, ids: set<Id>)
    requires KnownEdges(edges, ids) && OutgoingOk(outgoing, edges, ids) && IndegreeOk(indegree, edges, ids)
    ensures ClosedGraph(NeedGraph(edges, ids)) && Matches(outgoing, NeedGraph(edges, ids))
    ensures Counts(indegree, NeedGraph(edges, ids), {})
  {
    var g := NeedGraph(edges, ids);
    forall v {:trigger g[v]} | v in g ensures g[v] <= g.Keys { }
    forall v {:trigger indegree[v]} | v in g ensures indegree[v] == |g[v] - {}| {
      assert g[v] - {} == g[v];
    }
    forall u, v {:trigger v in outgoing[u]} | u in g ensures v in outgoing[u] <==> v in g && u in g[v] {
      EdgeIffNeed(edges, ids, u, v);
    }
  }

  lemma EdgeIffNeed(edges: set<GoalEdge>, ids: set<Id>, u: Id, v: Id)
    requires KnownEdges(edges, ids)
    ensures GoalEdge(u, v) in edges <==> v in ids && u in Prerequisites(edges, v)
  {
    if u in Prerequisites(edges, v) {
      var e :| e in edges && e.dependent == v && e.prerequisite == u;
      assert e == GoalEdge(u, v);
    }
  }

  // What each fault says of the edges.
  ghost predicate Faulty(edges: seq<GoalEdge>, ids: set<Id>, e: DependencyError) {
    match e
    case DuplicateDependency => !Distinct(edges)
    case UnknownPrerequisite => exists x :: x in edges && x.prerequisite !in ids
    case UnknownDependent => exists x :: x in edges && x.dependent !in ids
    case SelfDependency => exists x :: x in edges && x.prerequisite == x.dependent
    case CyclicDependencies => exists c :: IsCycle(NeedGraph(Elems(edges), ids), c)
  }

  lemma {:induction false} EdgeErrorMeans(edges: seq<GoalEdge>, ids: set<Id>)
    ensures FirstEdgeError(edges, ids).Some? ==>
      FirstEdgeError(edges, ids).value != CyclicDependencies && Faulty(edges, ids, FirstEdgeError(edges, ids).value)
  {
    if edges != [] {
      var n := |edges| - 1;
      EdgeErrorMeans(edges[..n], ids);
      DistinctLast(edges);
      assert edges[n] in edges && forall x :: x in edges[..n] ==> x in edges;
    }
  }

  lemma DagErrorMeans(deps: seq<Dependency>, ids: set<Id>)
    ensures DagError(deps, ids).Some? ==> Faulty(EdgesOf(deps), ids, DagError(deps, ids).value)
  {
    EdgeErrorMeans(EdgesOf(deps), ids);
  }

  // `_validate_dependency_dag`.
  method ValidateDependencyDag(deps: seq<Dependency>, ids: set<Id>) returns (error: Option<DependencyError>)
    ensures error == DagError(deps, ids)
    ensures error == None <==>
            && Distinct(EdgesOf(deps)) && KnownEdges(Elems(EdgesOf(deps)), ids)
            && Acyclic(NeedGraph(Elems(EdgesOf(deps)), ids))
    ensures error.Some? ==> Faulty(EdgesOf(deps), ids, error.value)
  {
    NoEdgeErrorIff(EdgesOf(deps), ids);
    DagErrorMeans(deps, ids);
    var outgoing, indegree;
    error, outgoing, indegree := BuildTables(deps, ids);
    if error.Some? {
      return;
    }
    TablesMatch(outgoing, indegree, Elems(EdgesOf(deps)), ids);
    var visited := CountOrdered(outgoing, indegree, NeedGraph(Elems(EdgesOf(deps)), ids));
    if visited != |ids| {
      error := Some(CyclicDependencies);
    }
  }
}
