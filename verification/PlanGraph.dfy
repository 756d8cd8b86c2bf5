// The plan dependency check of brain/planning.py: a recursive three-colour
// depth-first search whose `visiting` and `visited` sets are updated in place.
module PlanGraph {
  import opened Foundation
  import opened Digraphs

  function NeedsOf(prerequisites: map<Id, seq<Id>>): map<Id, set<Id>> {
    map id | id in prerequisites :: Elems(prerequisites[id])
  }

  class CycleSearch {
    const prerequisites: map<Id, seq<Id>>
    var visiting: set<Id>
    var visited: set<Id>
    ghost var stack: seq<Id>   // the chain of open calls, `visiting` in call order
    ghost var order: seq<Id>   // `visited` in finishing order

    ghost function Graph(): map<Id, set<Id>> { NeedsOf(prerequisites) }

    ghost predicate Closed() {
      forall id :: id in prerequisites ==> Elems(prerequisites[id]) <= prerequisites.Keys
    }

    ghost predicate Valid()
      reads this
    {
      && Distinct(stack) && Elems(stack) == visiting && visiting <= prerequisites.Keys
      && (stack != [] ==> IsWalk(Graph(), stack))
      && NeedsFirst(Graph(), order) && Elems(order) == visited
      && visiting !! visited
    }

    constructor (prerequisites: map<Id, seq<Id>>)
      ensures this.prerequisites == prerequisites
      ensures Valid() && visiting == {} && visited == {} && stack == []
    {
      this.prerequisites := prerequisites;
      visiting, visited := {}, {};
      stack, order := [], [];
    }

    // One call of the nested `visit`. `ok` is false where the source raises.
    method Visit(stepId: Id) returns (ok: bool)
      requires Valid() && Closed() && stepId in prerequisites
      requires stack != [] ==> stepId in Graph()[stack[|stack| - 1]]
      modifies this
      ensures Valid()
      ensures ok ==> stack == old(stack) && stepId in visited && old(visited) <= visited
      ensures !ok ==> exists c :: IsCycle(Graph(), c) && Elems(c) <= visiting
      decreases prerequisites.Keys - visiting
    {
      if stepId in visiting {
        WalkExtends(Graph(), stack, stepId);
        return false;
      }
      if stepId in visited {
        return true;
      }
      ghost var below := stack;
      if stack != [] {
        WalkExtends(Graph(), stack, stepId);
      }
      DistinctAppend(stack, stepId);
      visiting := visiting + {stepId};
      stack := stack + [stepId];
      var dependencies := prerequisites[stepId];
      var i := 0;
      while i < |dependencies|
        invariant 0 <= i <= |dependencies|
        invariant Valid() && stack == below + [stepId]
        invariant Elems(dependencies[..i]) <= visited && old(visited) <= visited
      {
        assert dependencies[i] in Elems(dependencies);
        var fine := Visit(dependencies[i]);
        if !fine {
          return false;
        }
        assert dependencies[..i + 1] == dependencies[..i] + [dependencies[i]];
        i := i + 1;
      }
      assert dependencies[..i] == dependencies;
      if below != [] {
        WalkPrefix(Graph(), below, stepId);
      }
      visiting := visiting - {stepId};
      visited := visited + {stepId};
      stack := below;
      NeedsFirstAppend(Graph(), order, stepId);
      order := order + [stepId];
      return true;
    }
  }

  lemma WalkPrefix(g: map<Id, set<Id>>, w: seq<Id>, u: Id)
    requires IsWalk(g, w + [u]) && w != []
    ensures IsWalk(g, w)
  {
    assert forall i :: 0 <= i < |w| ==> (w + [u])[i] == w[i];
  }

  // The driver loop over all ids in plan order.
  method SearchForCycle(ids: seq<Id>, prerequisites: map<Id, seq<Id>>) returns (ok: bool)
    requires Elems(ids) == prerequisites.Keys
    requires forall id :: id in prerequisites ==> Elems(prerequisites[id]) <= prerequisites.Keys
    ensures ok <==> Acyclic(NeedsOf(prerequisites))
  {
    var search := new CycleSearch(prerequisites);
    var i := 0;
    while i < |ids|
      invariant 0 <= i <= |ids|
      invariant search.prerequisites == prerequisites
      invariant search.Valid() && search.stack == []
      invariant Elems(ids[..i]) <= search.visited
    {
      assert ids[i] in Elems(ids);
      ok := search.Visit(ids[i]);
      if !ok {
        return;
      }
      assert ids[..i + 1] == ids[..i] + [ids[i]];
      i := i + 1;
    }
    assert ids[..i] == ids;
    NeedsFirstDistinct(NeedsOf(prerequisites), search.order);
    OrderImpliesAcyclic(NeedsOf(prerequisites), search.order);
    ok := true;
  }
}
