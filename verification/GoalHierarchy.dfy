// Parent hierarchy, descendant walk, criterion traces and the whole
// decomposition of brain/goal_decomposition.py.
module GoalHierarchy {
  import opened Foundation
  import opened Digraphs
  import D = GoalDependencies

  datatype Goal = Goal(goalId: Id, objective: string, owner: Agent, criteria: seq<string>, parent: Option<Id>)
  datatype Trace = Trace(ownerId: Id, criterion: string, responsible: seq<Id>)

  datatype GoalError =
    | RootHasParent | NoSubgoals | DuplicateGoal | SubgoalWithoutParent | UnknownParent | ParentCycle
    | DependencyFault(kind: D.DependencyError)
    | UnknownOwner | UndeclaredCriterion | UnknownResponsible | NotADescendant | UntracedCriterion

  // ---------- the parent relation ----------

  function GoalIndex(goals: seq<Goal>): map<Id, Goal> {
    if goals == [] then map[]
    else GoalIndex(goals[..|goals| - 1])[goals[|goals| - 1].goalId := goals[|goals| - 1]]
  }

  function ParentGraph(goals: map<Id, Goal>): map<Id, set<Id>> {
    map id | id in goals :: match goals[id].parent case None => {} case Some(p) => {p}
  }

  predicate Keyed(goals: map<Id, Goal>) {
    forall id :: id in goals ==> goals[id].goalId == id
  }

  // Every entry but the root has a known parent.
  predicate ParentsKnown(goals: map<Id, Goal>, rootId: Id) {
    && rootId in goals && goals[rootId].parent == None
    && forall id :: id in goals && id != rootId ==> goals[id].parent.Some? && goals[id].parent.value in goals
  }

  function FirstParentError(subgoals: seq<Goal>, ids: set<Id>): Option<GoalError> {
    if subgoals == [] then None
    else if subgoals[0].parent == None then Some(SubgoalWithoutParent)
    else if subgoals[0].parent.value !in ids then Some(UnknownParent)
    else FirstParentError(subgoals[1..], ids)
  }

  predicate UniqueIds(goals: seq<Goal>) {
    goals == [] ||
    (UniqueIds(goals[..|goals| - 1]) && goals[|goals| - 1].goalId !in GoalIndex(goals[..|goals| - 1]))
  }

  ghost function HierarchyError(root: Goal, subgoals: seq<Goal>): Option<GoalError> {
    var goals := GoalIndex([root] + subgoals);
    if root.parent.Some? then Some(RootHasParent)
    else if subgoals == [] then Some(NoSubgoals)
    else if !UniqueIds([root] + subgoals) then Some(DuplicateGoal)
    else if FirstParentError(subgoals, goals.Keys).Some? then FirstParentError(subgoals, goals.Keys)
    else if !Acyclic(ParentGraph(goals)) then Some(ParentCycle)
    else None
  }

  // A rooted tree: one parentless root, known parents elsewhere, no cycle.
  ghost predicate RootedTree(goals: map<Id, Goal>, rootId: Id) {
    Keyed(goals) && ParentsKnown(goals, rootId) && Acyclic(ParentGraph(goals))
  }

  ghost predicate Indexed(goals: seq<Goal>, index: map<Id, Goal>) {
    && (forall g :: g in goals ==> g.goalId in index && index[g.goalId] == g)
    && forall id :: id in index ==> index[id] in goals && index[id].goalId == id
  }

  lemma IndexOneMore(goals: seq<Goal>, index: map<Id, Goal>, g: Goal)
    requires Indexed(goals, index) && g.goalId !in index
    ensures Indexed(goals + [g], index[g.goalId := g]) && |index[g.goalId := g]| == |index| + 1
  {
    var next := index[g.goalId := g];
    forall h | h in goals + [g] ensures h.goalId in next && next[h.goalId] == h {
      if h in goals { assert h.goalId in index; }
    }
    assert next.Keys == index.Keys + {g.goalId};
  }

  lemma {:induction false} IndexFacts(goals: seq<Goal>)
    requires UniqueIds(goals)
    ensures Keyed(GoalIndex(goals))
    ensures forall g :: g in goals ==> g.goalId in GoalIndex(goals) && GoalIndex(goals)[g.goalId] == g
    ensures forall id :: id in GoalIndex(goals) ==> GoalIndex(goals)[id] in goals
    ensures |GoalIndex(goals)| == |goals|
  {
    if goals != [] {
      var n := |goals| - 1;
      IndexFacts(goals[..n]);
      IndexOneMore(goals[..n], GoalIndex(goals[..n]), goals[n]);
      assert goals == goals[..n] + [goals[n]];
    }
  }

  lemma {:induction false} ParentErrorIff(subgoals: seq<Goal>, ids: set<Id>)
    ensures FirstParentError(subgoals, ids) == None <==>
            forall g :: g in subgoals ==> g.parent.Some? && g.parent.value in ids
  {
    if subgoals != [] {
      assert subgoals == [subgoals[0]] + subgoals[1..];
      ParentErrorIff(subgoals[1..], ids);
    }
  }

  lemma KnownParents(root: Goal, subgoals: seq<Goal>)
    requires root.parent == None && UniqueIds([root] + subgoals)
    requires FirstParentError(subgoals, GoalIndex([root] + subgoals).Keys) == None
    ensures Keyed(GoalIndex([root] + subgoals))
    ensures ParentsKnown(GoalIndex([root] + subgoals), root.goalId)
  {
    var all := [root] + subgoals;
    IndexFacts(all);
    ParentErrorIff(subgoals, GoalIndex(all).Keys);
    assert all[0] == root;
    forall id | id in GoalIndex(all) && id != root.goalId
      ensures GoalIndex(all)[id].parent.Some? && GoalIndex(all)[id].parent.value in GoalIndex(all)
    {
      assert GoalIndex(all)[id] in all;
      assert GoalIndex(all)[id] in subgoals;
    }
  }

  // The error kinds amount to: ids distinct, a subgoal, and a rooted tree.
  lemma HierarchyOkIff(root: Goal, subgoals: seq<Goal>)
    ensures HierarchyError(root, subgoals) == None <==>
            && subgoals != [] && UniqueIds([root] + subgoals)
            && RootedTree(GoalIndex([root] + subgoals), root.goalId)
  {
    var all := [root] + subgoals;
    if UniqueIds(all) {
      IndexFacts(all);
      assert all[0] == root;
      ParentErrorIff(subgoals, GoalIndex(all).Keys);
      if ParentsKnown(GoalIndex(all), root.goalId) {
        forall g | g in subgoals ensures g.parent.Some? && g.parent.value in GoalIndex(all) {
          SubgoalIsNotRoot(root, subgoals, g);
        }
      }
      if root.parent == None && FirstParentError(subgoals, GoalIndex(all).Keys) == None {
        KnownParents(root, subgoals);
      }
    }
  }

  lemma SubgoalIsNotRoot(root: Goal, subgoals: seq<Goal>, g: Goal)
    requires UniqueIds([root] + subgoals) && g in subgoals
    ensures g.goalId != root.goalId
  {
    var all := [root] + subgoals;
    var k :| 0 <= k < |subgoals| && subgoals[k] == g;
    IdsDiffer(all, 0, k + 1);
  }

  lemma {:induction false} IdsDiffer(goals: seq<Goal>, i: nat, j: nat)
    requires UniqueIds(goals) && i < j < |goals|
    ensures goals[i].goalId != goals[j].goalId
  {
    var n := |goals| - 1;
    if j < n {
      IdsDiffer(goals[..n], i, j);
    } else {
      IndexFacts(goals[..n]);
      assert goals[..n][i] in goals[..n];
    }
  }

  // ---------- walking up ----------

  ghost predicate ClosedUp(goals: map<Id, Goal>, s: set<Id>) {
    forall id :: id in s && id in goals && goals[id].parent.Some? ==> goals[id].parent.value in s
  }

  // A node on a cycle of parents never reaches a parentless node.
  lemma CycleIsClosedUp(goals: map<Id, Goal>, c: seq<Id>)
    requires IsCycle(ParentGraph(goals), c)
    ensures ClosedUp(goals, Elems(c))
    ensures forall id :: id in c ==> id in goals && goals[id].parent.Some?
  {
    forall id | id in c ensures id in goals && goals[id].parent.Some? && goals[id].parent.value in c {
      var k :| 0 <= k < |c| && c[k] == id;
      var i := if k < |c| - 1 then k else 0;
      var j := i + 1;
      assert c[i] == id && c[j] in ParentGraph(goals)[c[i]];
    }
  }

  lemma {:induction false} WalkStaysUp(goals: map<Id, Goal>, s: set<Id>, p: seq<Id>)
    requires IsWalk(ParentGraph(goals), p) && p[0] in s && ClosedUp(goals, s)
    ensures p[|p| - 1] in s
    decreases |p|
  {
    if |p| > 1 {
      assert p[1] in ParentGraph(goals)[p[0]];
      WalkStaysUp(goals, s, p[1..]);
    }
  }

  // If every node reaches the root there is no cycle of parents.
  lemma AllReachRootImpliesAcyclic(goals: map<Id, Goal>, rootId: Id)
    requires ParentsKnown(goals, rootId)
    requires forall id :: id in goals ==> Reaches(goals, id, rootId)
    ensures Acyclic(ParentGraph(goals))
  {
    forall c ensures !IsCycle(ParentGraph(goals), c) {
      if IsCycle(ParentGraph(goals), c) {
        CycleIsClosedUp(goals, c);
        var p :| IsWalk(ParentGraph(goals), p) && p[0] == c[0] && p[|p| - 1] == rootId;
        WalkStaysUp(goals, Elems(c), p);
        assert false;
      }
    }
  }

  ghost predicate Reaches(goals: map<Id, Goal>, id: Id, target: Id) {
    exists p :: IsWalk(ParentGraph(goals), p) && p[0] == id && p[|p| - 1] == target
  }

  // The inner walk of `_validate_parent_hierarchy` from one goal. The source's
  // "not connected" error cannot occur once all parents are known.
  method WalkToRoot(goals: map<Id, Goal>, rootId: Id, start: Id) returns (ok: bool)
    requires Keyed(goals) && ParentsKnown(goals, rootId) && start in goals
    ensures ok ==> Reaches(goals, start, rootId)
    ensures !ok ==> !Acyclic(ParentGraph(goals))
  {
    var seen: set<Id> := {};
    var current := goals[start];
    ghost var path := [start];
    while current.goalId != rootId
      invariant IsWalk(ParentGraph(goals), path) && path[0] == start && path[|path| - 1] == current.goalId
      invariant current.goalId in goals && goals[current.goalId] == current
      invariant seen == Elems(path[..|path| - 1]) && seen <= goals.Keys
      decreases goals.Keys - seen
    {
      if current.goalId in seen {
        ghost var k :| 0 <= k < |path| - 1 && path[k] == current.goalId;
        assert IsCycle(ParentGraph(goals), path[k..]);
        return false;
      }
      seen := seen + {current.goalId};
      var parent := current.parent.value;
      WalkExtends(ParentGraph(goals), path, parent);
      assert path == path[..|path| - 1] + [current.goalId];
      path := path + [parent];
      current := goals[parent];
    }
    ok := true;
  }

  // The index loop: root first, then the subgoals, no id twice.
  method IndexGoals(root: Goal, subgoals: seq<Goal>) returns (goals: Option<map<Id, Goal>>)
    ensures goals.Some? <==> UniqueIds([root] + subgoals)
    ensures goals.Some? ==> goals.value == GoalIndex([root] + subgoals)
  {
    ghost var all := [root] + subgoals;
    var index := map[root.goalId := root];
    var i := 0;
    assert all[..1] == [root] && GoalIndex([root][..0]) == map[];
    while i < |subgoals|
      invariant 0 <= i <= |subgoals|
      invariant UniqueIds(all[..i + 1]) && index == GoalIndex(all[..i + 1])
    {
      IndexNext(root, subgoals, i, index);
      if subgoals[i].goalId in index { return None; }
      index := index[subgoals[i].goalId := subgoals[i]];
      i := i + 1;
    }
    assert all[..i + 1] == all;
    goals := Some(index);
  }

  lemma IndexNext(root: Goal, subgoals: seq<Goal>, i: nat, index: map<Id, Goal>)
    requires i < |subgoals|
    requires UniqueIds(([root] + subgoals)[..i + 1]) && index == GoalIndex(([root] + subgoals)[..i + 1])
    ensures subgoals[i].goalId in index ==> !UniqueIds([root] + subgoals)
    ensures subgoals[i].goalId !in index ==> UniqueIds(([root] + subgoals)[..i + 2])
    ensures GoalIndex(([root] + subgoals)[..i + 2]) == index[subgoals[i].goalId := subgoals[i]]
  {
    var all := [root] + subgoals;
    assert all[..i + 2][..i + 1] == all[..i + 1] && all[i + 1] == subgoals[i];
    if subgoals[i].goalId in index { RepeatStays(all, i + 2); }
  }

  method ScanParents(subgoals: seq<Goal>, ids: set<Id>) returns (error: Option<GoalError>)
    ensures error == FirstParentError(subgoals, ids)
  {
    var i := 0;
    while i < |subgoals|
      invariant 0 <= i <= |subgoals|
      invariant FirstParentError(subgoals, ids) == FirstParentError(subgoals[i..], ids)
    {
      if subgoals[i].parent == None {
        return Some(SubgoalWithoutParent);
      }
      if subgoals[i].parent.value !in ids {
        return Some(UnknownParent);
      }
      i := i + 1;
    }
    error := None;
  }

  // The walk from every subgoal, which rejects exactly the cyclic hierarchies.
  method AllConnected(goals: map<Id, Goal>, rootId: Id, subgoals: seq<Goal>) returns (ok: bool)
    requires Keyed(goals) && ParentsKnown(goals, rootId)
    requires forall g :: g in subgoals ==> g.goalId in goals
    requires forall id :: id in goals && id != rootId ==> goals[id] in subgoals
    ensures ok <==> Acyclic(ParentGraph(goals))
  {
    var i := 0;
    while i < |subgoals|
      invariant 0 <= i <= |subgoals|
      invariant forall g :: g in subgoals[..i] ==> Reaches(goals, g.goalId, rootId)
    {
      assert subgoals[i] in subgoals;
      ok := WalkToRoot(goals, rootId, subgoals[i].goalId);
      if !ok {
        return;
      }
      assert subgoals[..i + 1] == subgoals[..i] + [subgoals[i]];
      i := i + 1;
    }
    assert subgoals[..i] == subgoals;
    assert IsWalk(ParentGraph(goals), [rootId]);
    AllReachRootImpliesAcyclic(goals, rootId);
    ok := true;
  }

  // `_validate_parent_hierarchy`.
  method ValidateParentHierarchy(root: Goal, subgoals: seq<Goal>) returns (r: Result<map<Id, Goal>, GoalError>)
    ensures r == match HierarchyError(root, subgoals)
                 case None => Ok(GoalIndex([root] + subgoals))
                 case Some(e) => Err(e)
  {
    if root.parent.Some? {
      return Err(RootHasParent);
    }
    if subgoals == [] {
      return Err(NoSubgoals);
    }
    var index := IndexGoals(root, subgoals);
    if index == None {
      return Err(DuplicateGoal);
    }
    var goals := index.value;
    var parentError := ScanParents(subgoals, goals.Keys);
    if parentError.Some? {
      return Err(parentError.value);
    }
    KnownParents(root, subgoals);
    MembersOfIndex(root, subgoals);
    var ok := AllConnected(goals, root.goalId, subgoals);
    r := if ok then Ok(goals) else Err(ParentCycle);
  }

  lemma MembersOfIndex(root: Goal, subgoals: seq<Goal>)
    requires UniqueIds([root] + subgoals)
    ensures var goals := GoalIndex([root] + subgoals);
            && (forall g :: g in subgoals ==> g.goalId in goals)
            && (forall id :: id in goals && id != root.goalId ==> goals[id] in subgoals)
  {
    var all := [root] + subgoals;
    IndexFacts(all);
    forall g | g in subgoals ensures g.goalId in GoalIndex(all) {
      assert g in all;
    }
  }

  lemma {:induction false} RepeatStays(goals: seq<Goal>, i: nat)
    requires i <= |goals| && !UniqueIds(goals[..i])
    ensures !UniqueIds(goals)
    decreases |goals|
  {
    if i == |goals| {
      assert goals[..i] == goals;
    } else {
      assert goals[..|goals| - 1][..i] == goals[..i];
      RepeatStays(goals[..|goals| - 1], i);
    }
  }

  // ---------- strict descendants ----------

  // A chain of at least one parent step.
  ghost predicate ParentPath(goals: map<Id, Goal>, w: seq<Id>) {
    |w| >= 2 && forall i, j :: 0 <= i && j == i + 1 < |w| ==> IsParent(goals, w[i], w[j])
  }

  ghost predicate IsParent(goals: map<Id, Goal>, child: Id, parent: Id) {
    child in goals && goals[child].parent == Some(parent)
  }

  ghost predicate StrictDescendant(goals: map<Id, Goal>, d: Id, a: Id) {
    exists w :: ParentPath(goals, w) && w[0] == d && w[|w| - 1] == a
  }

  lemma {:induction false} PathStaysUp(goals: map<Id, Goal>, s: set<Id>, w: seq<Id>)
    requires ParentPath(goals, w) && w[0] in s && ClosedUp(goals, s)
    ensures w[|w| - 1] in s
    decreases |w|
  {
    var j := 1;
    assert IsParent(goals, w[0], w[j]);
    if |w| > 2 {
      PathStaysUp(goals, s, w[1..]);
    }
  }

  lemma NotAbove(goals: map<Id, Goal>, s: set<Id>, d: Id, a: Id)
    requires ClosedUp(goals, s) && d in s && a !in s
    ensures !StrictDescendant(goals, d, a)
  {
    if StrictDescendant(goals, d, a) {
      var w :| ParentPath(goals, w) && w[0] == d && w[|w| - 1] == a;
      PathStaysUp(goals, s, w);
      assert false;
    }
  }

  // `_is_strict_descendant`, for every index of goals, cyclic ones included.
  method IsStrictDescendant(d: Id, a: Id, goals: map<Id, Goal>) returns (r: bool)
    requires d in goals && Keyed(goals)
    ensures r <==> d != a && StrictDescendant(goals, d, a)
  {
    if d == a {
      return false;
    }
    var current := goals[d];
    var seen: set<Id> := {};
    ghost var w := [d];
    while current.parent.Some?
      invariant current.goalId in goals && goals[current.goalId] == current
      invariant w != [] && current.goalId == w[|w| - 1] && w[0] == d && a !in w
      invariant forall i, j :: 0 <= i && j == i + 1 < |w| ==> IsParent(goals, w[i], w[j])
      invariant seen == Elems(w[1..]) && seen <= goals.Keys
      decreases goals.Keys - seen
    {
      var parent := current.parent.value;
      ghost var longer := w + [parent];
      assert IsParent(goals, w[|w| - 1], parent);
      if parent == a {
        assert ParentPath(goals, longer);
        return true;
      }
      if parent in seen || parent !in goals {
        WalkedIsClosedUp(goals, w, parent);
        NotAbove(goals, Elems(longer), d, a);
        return false;
      }
      assert longer[1..] == w[1..] + [parent];
      ElemsAppend(w[1..], [parent]);
      seen := seen + {parent};
      current := goals[parent];
      w := longer;
    }
    WalkedToTopIsClosedUp(goals, w);
    NotAbove(goals, Elems(w), d, a);
    r := false;
  }

  lemma WalkedIsClosedUp(goals: map<Id, Goal>, w: seq<Id>, parent: Id)
    requires w != [] && IsParent(goals, w[|w| - 1], parent)
    requires forall i, j :: 0 <= i && j == i + 1 < |w| ==> IsParent(goals, w[i], w[j])
    requires parent in w[1..] || parent !in goals
    ensures ClosedUp(goals, Elems(w + [parent]))
  {
    var longer := w + [parent];
    forall id | id in longer && id in goals && goals[id].parent.Some? ensures goals[id].parent.value in longer {
      if id in w {
        var i :| 0 <= i < |w| && w[i] == id;
        var j := i + 1;
        assert IsParent(goals, longer[i], longer[j]);
      }
    }
  }

  lemma WalkedToTopIsClosedUp(goals: map<Id, Goal>, w: seq<Id>)
    requires w != [] && w[|w| - 1] in goals && goals[w[|w| - 1]].parent == None
    requires forall i, j :: 0 <= i && j == i + 1 < |w| ==> IsParent(goals, w[i], w[j])
    ensures ClosedUp(goals, Elems(w))
  {
    forall id | id in w && id in goals && goals[id].parent.Some? ensures goals[id].parent.value in w {
      var i :| 0 <= i < |w| && w[i] == id;
      var j := i + 1;
      assert j < |w|;
      assert IsParent(goals, w[i], w[j]);
    }
  }

  // In a rooted tree a parent path never repeats an id nor leaves the goals,
  // so the walk's two guards are never what ends it.
  lemma PathIsWalk(goals: map<Id, Goal>, rootId: Id, w: seq<Id>)
    requires ParentsKnown(goals, rootId) && ParentPath(goals, w)
    ensures IsWalk(ParentGraph(goals), w)
  {
    forall i | 0 <= i < |w| ensures w[i] in goals {
      if i == 0 {
        var j := 1;
        assert IsParent(goals, w[0], w[j]);
      } else {
        var k := i - 1;
        assert IsParent(goals, w[k], w[i]);
      }
    }
    forall i, j | 0 <= i && j == i + 1 < |w| ensures w[j] in ParentGraph(goals)[w[i]] {
      assert IsParent(goals, w[i], w[j]);
    }
  }

  lemma TreePathsDoNotRepeat(goals: map<Id, Goal>, rootId: Id, w: seq<Id>)
    requires RootedTree(goals, rootId) && ParentPath(goals, w)
    ensures Distinct(w) && Elems(w) <= goals.Keys
  {
    PathIsWalk(goals, rootId, w);
    forall i, j | 0 <= i < j < |w| ensures w[i] != w[j] {
      if w[i] == w[j] {
        RepeatIsCycle(ParentGraph(goals), w, i, j);
        assert false;
      }
    }
  }

  lemma NotBelowItself(goals: map<Id, Goal>, rootId: Id, d: Id)
    requires RootedTree(goals, rootId)
    ensures !StrictDescendant(goals, d, d)
  {
    if StrictDescendant(goals, d, d) {
      var w :| ParentPath(goals, w) && w[0] == d && w[|w| - 1] == d;
      TreePathsDoNotRepeat(goals, rootId, w);
      assert false;
    }
  }

  lemma DescendantIsStrictOrder(goals: map<Id, Goal>, rootId: Id)
    requires RootedTree(goals, rootId)
    ensures forall d :: !StrictDescendant(goals, d, d)
    ensures forall a, b, c ::
      StrictDescendant(goals, a, b) && StrictDescendant(goals, b, c) ==> StrictDescendant(goals, a, c)
    ensures forall id :: id in goals && id != rootId ==> StrictDescendant(goals, id, rootId)
  {
    forall d ensures !StrictDescendant(goals, d, d) {
      NotBelowItself(goals, rootId, d);
    }
    forall a, b, c | StrictDescendant(goals, a, b) && StrictDescendant(goals, b, c)
      ensures StrictDescendant(goals, a, c)
    {
      DescendantsCompose(goals, a, b, c);
    }
    forall id | id in goals && id != rootId ensures StrictDescendant(goals, id, rootId) {
      ClimbToRoot(goals, rootId, [], id);
    }
  }

  lemma DescendantsCompose(goals: map<Id, Goal>, a: Id, b: Id, c: Id)
    requires StrictDescendant(goals, a, b) && StrictDescendant(goals, b, c)
    ensures StrictDescendant(goals, a, c)
  {
    var u :| ParentPath(goals, u) && u[0] == a && u[|u| - 1] == b;
    var v :| ParentPath(goals, v) && v[0] == b && v[|v| - 1] == c;
    var w := u + v[1..];
    forall i, j | 0 <= i && j == i + 1 < |w| ensures IsParent(goals, w[i], w[j]) {
      if j < |u| {
        assert IsParent(goals, u[i], u[j]);
      } else {
        var k, l := i - (|u| - 1), j - (|u| - 1);
        assert IsParent(goals, v[k], v[l]);
      }
    }
    assert ParentPath(goals, w);
  }

  // Climbing from any node of a rooted tree ends at the root.
  lemma {:induction false} ClimbToRoot(goals: map<Id, Goal>, rootId: Id, below: seq<Id>, id: Id)
    requires RootedTree(goals, rootId) && id in goals && id != rootId
    requires below != [] ==> ParentPath(goals, below + [id])
    ensures StrictDescendant(goals, id, rootId)
    decreases |goals.Keys| - |below|
  {
    var parent := goals[id].parent.value;
    var w := below + [id] + [parent];
    assert IsParent(goals, id, parent);
    assert ParentPath(goals, w) by {
      forall i, j | 0 <= i && j == i + 1 < |w| ensures IsParent(goals, w[i], w[j]) {
        if j < |w| - 1 { assert IsParent(goals, (below + [id])[i], (below + [id])[j]); }
      }
    }
    TreePathsDoNotRepeat(goals, rootId, w);
    DistinctCard(w);
    SubsetCard(Elems(w), goals.Keys);
    assert ParentPath(goals, [id, parent]);
    if parent == rootId {
    } else {
      ClimbToRoot(goals, rootId, below + [id], parent);
      assert StrictDescendant(goals, id, parent);
      DescendantsCompose(goals, id, parent, rootId);
    }
  }

  // ---------- criterion traces ----------

  ghost function ResponsibleError(goals: map<Id, Goal>, ownerId: Id, responsible: seq<Id>): Option<GoalError> {
    if responsible == [] then None
    else if responsible[0] !in goals then Some(UnknownResponsible)
    else if responsible[0] == ownerId || !StrictDescendant(goals, responsible[0], ownerId) then Some(NotADescendant)
    else ResponsibleError(goals, ownerId, responsible[1..])
  }

  ghost function TraceError(goals: map<Id, Goal>, t: Trace): Option<GoalError> {
    if t.ownerId !in goals then Some(UnknownOwner)
    else if t.criterion !in goals[t.ownerId].criteria then Some(UndeclaredCriterion)
    else ResponsibleError(goals, t.ownerId, t.responsible)
  }

  ghost function FirstTraceError(goals: map<Id, Goal>, traces: seq<Trace>): Option<GoalError> {
    if traces == [] then None
    else if TraceError(goals, traces[0]).Some? then TraceError(goals, traces[0])
    else FirstTraceError(goals, traces[1..])
  }

  function RootCoverage(rootId: Id, traces: seq<Trace>): set<string> {
    set t | t in traces && t.ownerId == rootId :: t.criterion
  }

  ghost function TracesError(root: Goal, traces: seq<Trace>, goals: map<Id, Goal>): Option<GoalError> {
    if FirstTraceError(goals, traces).Some? then FirstTraceError(goals, traces)
    else if !(Elems(root.criteria) <= RootCoverage(root.goalId, traces)) then Some(UntracedCriterion)
    else None
  }

  method CheckTrace(goals: map<Id, Goal>, t: Trace) returns (error: Option<GoalError>)
    requires Keyed(goals)
    ensures error == TraceError(goals, t)
  {
    if t.ownerId !in goals {
      return Some(UnknownOwner);
    }
    if t.criterion !in goals[t.ownerId].criteria {
      return Some(UndeclaredCriterion);
    }
    var i := 0;
    while i < |t.responsible|
      invariant 0 <= i <= |t.responsible|
      invariant ResponsibleError(goals, t.ownerId, t.responsible)
             == ResponsibleError(goals, t.ownerId, t.responsible[i..])
    {
      if t.responsible[i] !in goals {
        return Some(UnknownResponsible);
      }
      var below := IsStrictDescendant(t.responsible[i], t.ownerId, goals);
      if !below {
        return Some(NotADescendant);
      }
      i := i + 1;
    }
    error := None;
  }

  // `_validate_criterion_traces`.
  method ValidateCriterionTraces(root: Goal, traces: seq<Trace>, goals: map<Id, Goal>)
    returns (error: Option<GoalError>)
    requires Keyed(goals)
    ensures error == TracesError(root, traces, goals)
  {
    var coverage: set<string> := {};
    var i := 0;
    while i < |traces|
      invariant 0 <= i <= |traces|
      invariant FirstTraceError(goals, traces) == FirstTraceError(goals, traces[i..])
      invariant coverage == RootCoverage(root.goalId, traces[..i])
    {
      error := CheckTrace(goals, traces[i]);
      if error.Some? {
        return;
      }
      assert traces[..i + 1] == traces[..i] + [traces[i]];
      CoverageAppend(root.goalId, traces[..i], traces[i]);
      if traces[i].ownerId == root.goalId {
        coverage := coverage + {traces[i].criterion};
      }
      i := i + 1;
    }
    assert traces[..i] == traces;
    error := if Elems(root.criteria) <= coverage then None else Some(UntracedCriterion);
  }

  lemma CoverageAppend(rootId: Id, traces: seq<Trace>, t: Trace)
    ensures RootCoverage(rootId, traces + [t])
         == RootCoverage(rootId, traces) + (if t.ownerId == rootId then {t.criterion} else {})
  {
    var longer := traces + [t];
    assert longer[|traces|] == t;
    forall x | x in traces ensures x in longer { }
    forall x | x in longer ensures x in traces || x == t { }
  }

  // ---------- the whole decomposition ----------

  ghost function DecompositionError(root: Goal, subgoals: seq<Goal>, deps: seq<D.Dependency>, traces: seq<Trace>)
    : Option<GoalError>
  {
    var goals := GoalIndex([root] + subgoals);
    if HierarchyError(root, subgoals).Some? then HierarchyError(root, subgoals)
    else if D.DagError(deps, goals.Keys).Some? then Some(DependencyFault(D.DagError(deps, goals.Keys).value))
    else TracesError(root, traces, goals)
  }

  // What each fault says of the request.
  ghost predicate Faulty(root: Goal, subgoals: seq<Goal>, deps: seq<D.Dependency>, traces: seq<Trace>, e: GoalError) {
    var goals := GoalIndex([root] + subgoals);
    match e
    case RootHasParent => root.parent.Some?
    case NoSubgoals => subgoals == []
    case DuplicateGoal => SharedId([root] + subgoals)
    case SubgoalWithoutParent => exists g :: g in subgoals && g.parent.None?
    case UnknownParent => exists g :: g in subgoals && g.parent.Some? && g.parent.value !in goals
    case ParentCycle => exists c :: IsCycle(ParentGraph(goals), c)
    case DependencyFault(kind) => D.Faulty(D.EdgesOf(deps), goals.Keys, kind)
    case UntracedCriterion =>
      exists c :: c in root.criteria && forall t :: t in traces && t.ownerId == root.goalId ==> t.criterion != c
    case _ => exists t :: t in traces && FaultyTrace(goals, t, e)
  }

  predicate SharedId(goals: seq<Goal>) {
    exists i, j :: 0 <= i < j < |goals| && goals[i].goalId == goals[j].goalId
  }

  ghost predicate FaultyTrace(goals: map<Id, Goal>, t: Trace, e: GoalError) {
    match e
    case UnknownOwner => t.ownerId !in goals
    case UndeclaredCriterion => t.ownerId in goals && t.criterion !in goals[t.ownerId].criteria
    case UnknownResponsible => exists id :: id in t.responsible && id !in goals
    case NotADescendant =>
      exists id :: id in t.responsible && id in goals && (id == t.ownerId || !StrictDescendant(goals, id, t.ownerId))
    case _ => false
  }

  lemma {:induction false} IndexKeys(goals: seq<Goal>, id: Id)
    ensures id in GoalIndex(goals) <==> exists g :: g in goals && g.goalId == id
  {
    if goals != [] {
      IndexKeys(goals[..|goals| - 1], id);
      assert goals == goals[..|goals| - 1] + [goals[|goals| - 1]];
    }
  }

  lemma {:induction false} RepeatShares(goals: seq<Goal>)
    requires !UniqueIds(goals)
    ensures SharedId(goals)
  {
    var n := |goals| - 1;
    if UniqueIds(goals[..n]) {
      IndexKeys(goals[..n], goals[n].goalId);
      var g :| g in goals[..n] && g.goalId == goals[n].goalId;
      var i :| 0 <= i < n && goals[i] == g;
    } else {
      RepeatShares(goals[..n]);
      var i, j :| 0 <= i < j < n && goals[..n][i].goalId == goals[..n][j].goalId;
      assert goals[i].goalId == goals[j].goalId;
    }
  }

  lemma {:induction false} ParentErrorMeans(subgoals: seq<Goal>, ids: set<Id>)
    ensures FirstParentError(subgoals, ids).Some? ==>
      match FirstParentError(subgoals, ids).value
      case SubgoalWithoutParent => exists g :: g in subgoals && g.parent.None?
      case UnknownParent => exists g :: g in subgoals && g.parent.Some? && g.parent.value !in ids
      case _ => false
  {
    if subgoals != [] {
      ParentErrorMeans(subgoals[1..], ids);
      assert subgoals[0] in subgoals && forall g :: g in subgoals[1..] ==> g in subgoals;
    }
  }

  lemma HierarchyErrorMeans(root: Goal, subgoals: seq<Goal>, deps: seq<D.Dependency>, traces: seq<Trace>)
    ensures var e := HierarchyError(root, subgoals);
      e.Some? ==> Faulty(root, subgoals, deps, traces, e.value)
  {
    var all := [root] + subgoals;
    if !UniqueIds(all) { RepeatShares(all); }
    ParentErrorMeans(subgoals, GoalIndex(all).Keys);
  }

  lemma {:induction false} ResponsibleErrorMeans(goals: map<Id, Goal>, ownerId: Id, responsible: seq<Id>)
    ensures var e := ResponsibleError(goals, ownerId, responsible);
      e.Some? ==>
      match e.value
      case UnknownResponsible => exists id :: id in responsible && id !in goals
      case NotADescendant =>
        exists id :: id in responsible && id in goals && (id == ownerId || !StrictDescendant(goals, id, ownerId))
      case _ => false
  {
    if responsible != [] {
      ResponsibleErrorMeans(goals, ownerId, responsible[1..]);
      assert responsible[0] in responsible && forall id :: id in responsible[1..] ==> id in responsible;
    }
  }

  lemma {:induction false} TraceErrorMeans(goals: map<Id, Goal>, traces: seq<Trace>)
    ensures var e := FirstTraceError(goals, traces);
      e.Some? ==> exists t :: t in traces && FaultyTrace(goals, t, e.value)
  {
    if traces != [] {
      TraceErrorMeans(goals, traces[1..]);
      ResponsibleErrorMeans(goals, traces[0].ownerId, traces[0].responsible);
      assert traces[0] in traces && forall t :: t in traces[1..] ==> t in traces;
    }
  }

  lemma TracesErrorMeans(root: Goal, subgoals: seq<Goal>, deps: seq<D.Dependency>, traces: seq<Trace>)
    ensures var e := TracesError(root, traces, GoalIndex([root] + subgoals));
      e.Some? ==> Faulty(root, subgoals, deps, traces, e.value)
  {
    var goals := GoalIndex([root] + subgoals);
    TraceErrorMeans(goals, traces);
    if FirstTraceError(goals, traces).None? && TracesError(root, traces, goals).Some? {
      var c :| c in Elems(root.criteria) && c !in RootCoverage(root.goalId, traces);
      assert c in root.criteria;
    }
  }

  lemma DecompositionErrorMeans(root: Goal, subgoals: seq<Goal>, deps: seq<D.Dependency>, traces: seq<Trace>)
    ensures var e := DecompositionError(root, subgoals, deps, traces);
      e.Some? ==> Faulty(root, subgoals, deps, traces, e.value)
  {
    HierarchyErrorMeans(root, subgoals, deps, traces);
    D.DagErrorMeans(deps, GoalIndex([root] + subgoals).Keys);
    TracesErrorMeans(root, subgoals, deps, traces);
  }

  // `build_goal_decomposition`: accepted requests are returned unchanged.
  method BuildGoalDecomposition(root: Goal, subgoals: seq<Goal>, deps: seq<D.Dependency>, traces: seq<Trace>)
    returns (error: Option<GoalError>)
    ensures error == DecompositionError(root, subgoals, deps, traces)
    ensures error.Some? ==> Faulty(root, subgoals, deps, traces, error.value)
  {
    DecompositionErrorMeans(root, subgoals, deps, traces);
    var goals := ValidateParentHierarchy(root, subgoals);
    if goals.Err? {
      return Some(goals.error);
    }
    HierarchyOkIff(root, subgoals);
    var dag := D.ValidateDependencyDag(deps, goals.value.Keys);
    if dag.Some? {
      return Some(DependencyFault(dag.value));
    }
    error := ValidateCriterionTraces(root, traces, goals.value);
  }

  // A trace of a declared criterion to strict descendants of its owner only.
  ghost predicate SoundTrace(goals: map<Id, Goal>, t: Trace) {
    && t.ownerId in goals && t.criterion in goals[t.ownerId].criteria
    && forall id :: id in t.responsible ==> id in goals && StrictDescendant(goals, id, t.ownerId)
  }

  ghost predicate AllSound(goals: map<Id, Goal>, traces: seq<Trace>) {
    forall t :: t in traces ==> SoundTrace(goals, t)
  }

  lemma {:induction false} ResponsibleErrorIff(goals: map<Id, Goal>, rootId: Id, ownerId: Id, responsible: seq<Id>)
    requires RootedTree(goals, rootId)
    ensures ResponsibleError(goals, ownerId, responsible) == None <==>
      forall id :: id in responsible ==> id in goals && StrictDescendant(goals, id, ownerId)
  {
    if responsible != [] {
      var id := responsible[0];
      assert responsible == [id] + responsible[1..];
      ResponsibleErrorIff(goals, rootId, ownerId, responsible[1..]);
      NotBelowItself(goals, rootId, ownerId);
    }
  }

  lemma {:induction false} TraceErrorsIff(goals: map<Id, Goal>, rootId: Id, traces: seq<Trace>)
    requires RootedTree(goals, rootId)
    ensures FirstTraceError(goals, traces) == None <==> AllSound(goals, traces)
  {
    if traces != [] {
      var t := traces[0];
      assert traces == [t] + traces[1..];
      ResponsibleErrorIff(goals, rootId, t.ownerId, t.responsible);
      TraceErrorsIff(goals, rootId, traces[1..]);
      assert AllSound(goals, traces) <==> SoundTrace(goals, t) && AllSound(goals, traces[1..]);
    }
  }

  lemma CoveredIff(root: Goal, traces: seq<Trace>)
    ensures Elems(root.criteria) <= RootCoverage(root.goalId, traces) <==>
      forall c :: c in root.criteria ==> exists t :: t in traces && t.ownerId == root.goalId && t.criterion == c
  {
    forall c | c in root.criteria
      ensures c in RootCoverage(root.goalId, traces) <==>
        exists t :: t in traces && t.ownerId == root.goalId && t.criterion == c
    {
    }
    assert forall c :: c in root.criteria <==> c in Elems(root.criteria);
  }

  // The exact acceptance condition: the hierarchy is a rooted tree, the
  // dependencies are distinct, known and acyclic, every trace is sound, and
  // every root criterion is traced.
  lemma DecompositionAcceptedIff(root: Goal, subgoals: seq<Goal>, deps: seq<D.Dependency>, traces: seq<Trace>)
    ensures var goals, edges := GoalIndex([root] + subgoals), D.EdgesOf(deps);
            DecompositionError(root, subgoals, deps, traces) == None <==>
            && subgoals != [] && UniqueIds([root] + subgoals) && RootedTree(goals, root.goalId)
            && Distinct(edges) && D.KnownEdges(Elems(edges), goals.Keys)
            && Acyclic(D.NeedGraph(Elems(edges), goals.Keys))
            && AllSound(goals, traces)
            && forall c :: c in root.criteria ==>
                 exists t :: t in traces && t.ownerId == root.goalId && t.criterion == c
  {
    HierarchyOkIff(root, subgoals);
    D.NoEdgeErrorIff(D.EdgesOf(deps), GoalIndex([root] + subgoals).Keys);
    CoveredIff(root, traces);
    if HierarchyError(root, subgoals) == None {
      TraceErrorsIff(GoalIndex([root] + subgoals), root.goalId, traces);
    }
  }

  // So every root criterion of an accepted decomposition is traced to a strict
  // descendant of the root, and whatever a trace names as responsible is a
  // strict descendant of that criterion's owner.
  lemma AcceptedDecomposition(root: Goal, subgoals: seq<Goal>, deps: seq<D.Dependency>, traces: seq<Trace>)
    requires DecompositionError(root, subgoals, deps, traces) == None
    requires forall t :: t in traces ==> t.responsible != []
    ensures var goals := GoalIndex([root] + subgoals);
            && RootedTree(goals, root.goalId) && |goals| == 1 + |subgoals|
            && Acyclic(D.NeedGraph(Elems(D.EdgesOf(deps)), goals.Keys))
            && forall t, id :: t in traces && id in t.responsible ==>
                 id in goals && StrictDescendant(goals, id, t.ownerId)
    ensures var goals := GoalIndex([root] + subgoals);
            forall c :: c in root.criteria ==> TracedBelow(goals, traces, root.goalId, c)
  {
    var goals := GoalIndex([root] + subgoals);
    DecompositionAcceptedIff(root, subgoals, deps, traces);
    IndexFacts([root] + subgoals);
    forall t, id | t in traces && id in t.responsible ensures id in goals && StrictDescendant(goals, id, t.ownerId) {
      assert SoundTrace(goals, t);
    }
    forall c | c in root.criteria ensures TracedBelow(goals, traces, root.goalId, c) {
      var t :| t in traces && t.ownerId == root.goalId && t.criterion == c;
      assert t.responsible[0] in t.responsible;
    }
  }

  // Some trace names a strict descendant of the owner as responsible for the criterion.
  ghost predicate TracedBelow(goals: map<Id, Goal>, traces: seq<Trace>, ownerId: Id, criterion: string) {
    exists t, id :: t in traces && t.ownerId == ownerId && t.criterion == criterion
                    && id in t.responsible && id in goals && StrictDescendant(goals, id, ownerId)
  }
}
