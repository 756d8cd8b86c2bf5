// Plan snapshots of brain/planning.py: construction-time validation, readiness
// and progress.
module Planning {
  import opened Foundation
  import opened Digraphs
  import opened PlanGraph

  datatype PlanStatus = Active | NeedsRevision | Satisfied | Abandoned
  datatype StepState = Pending | Blocked | Completed

  datatype PlanStep = PlanStep(
    stepId: Id, goalId: Id, owner: Agent, objective: string, dependsOn: seq<Id>,
    criteria: seq<string>, evidenceNeedIds: seq<Id>, actionIntentIds: seq<Id>, state: StepState)

  datatype PlanSnapshot = PlanSnapshot(
    planId: Id, goalId: Id, revision: int, steps: seq<PlanStep>, status: PlanStatus,
    parentRevision: Option<int>, revisionReason: Option<string>)

  datatype PlanError =
    | RevisionNotPositive | ParentNotPositive | InitialWithParent | InitialWithReason
    | ParentNotPrevious | ReasonMissing | NoSteps | WrongGoal
    | DuplicateStep | UnknownDependency | DependencyCycle
    | IncompleteDependencies | SatisfiedWithOpenSteps
    // raised by plan revisions
    | PreservedAndInvalidated | EmptyRevision | TerminalPlan | WrongPlan | WrongRevision
    | UnknownSteps | UnclassifiedSteps | DuplicateReplacement | ReusedIdentity | EmptyResult
    // raised by adaptive replanning
    | SignalPlanMismatch | SignalGoalMismatch | UnknownAffectedSteps | NothingToChange

  // ---------- what a validated snapshot is ----------

  function Ids(steps: seq<PlanStep>): seq<Id> {
    seq(|steps|, i requires 0 <= i < |steps| => steps[i].stepId)
  }

  function IdSet(steps: seq<PlanStep>): set<Id> {
    set s | s in steps :: s.stepId
  }

  function NeedsOfStep(steps: seq<PlanStep>, id: Id): set<Id> {
    set s, d | s in steps && s.stepId == id && d in s.dependsOn :: d
  }

  function DependencyGraph(steps: seq<PlanStep>): map<Id, set<Id>> {
    map id | id in IdSet(steps) :: NeedsOfStep(steps, id)
  }

  function CompletedIds(steps: seq<PlanStep>): set<Id> {
    set s | s in steps && s.state.Completed? :: s.stepId
  }

  predicate DependenciesResolve(steps: seq<PlanStep>) {
    forall s :: s in steps ==> Elems(s.dependsOn) <= IdSet(steps)
  }

  predicate CompletionClosed(steps: seq<PlanStep>) {
    forall s :: s in steps && s.state.Completed? ==> Elems(s.dependsOn) <= CompletedIds(steps)
  }

  predicate LineageOk(p: PlanSnapshot) {
    && p.revision >= 1
    && if p.revision == 1 then p.parentRevision == None && p.revisionReason == None
       else p.parentRevision == Some(p.revision - 1) && p.revisionReason != None
  }

  ghost predicate ValidSnapshot(p: PlanSnapshot) {
    && LineageOk(p)
    && p.steps != [] && (forall s :: s in p.steps ==> s.goalId == p.goalId)
    && Distinct(Ids(p.steps)) && DependenciesResolve(p.steps)
    && Acyclic(DependencyGraph(p.steps))
    && CompletionClosed(p.steps)
    && (p.status == Satisfied ==> forall s :: s in p.steps ==> s.state.Completed?)
  }

  // ---------- construction ----------

  function HeaderError(p: PlanSnapshot): Option<PlanError> {
    if p.revision < 1 then Some(RevisionNotPositive)
    else if p.parentRevision.Some? && p.parentRevision.value < 1 then Some(ParentNotPositive)
    else if p.revision == 1 && p.parentRevision.Some? then Some(InitialWithParent)
    else if p.revision == 1 && p.revisionReason.Some? then Some(InitialWithReason)
    else if p.revision != 1 && p.parentRevision != Some(p.revision - 1) then Some(ParentNotPrevious)
    else if p.revision != 1 && p.revisionReason.None? then Some(ReasonMissing)
    else if p.steps == [] then Some(NoSteps)
    else if exists s :: s in p.steps && s.goalId != p.goalId then Some(WrongGoal)
    else None
  }

  ghost function GraphError(steps: seq<PlanStep>): Option<PlanError> {
    if !Distinct(Ids(steps)) then Some(DuplicateStep)
    else if !DependenciesResolve(steps) then Some(UnknownDependency)
    else if !Acyclic(DependencyGraph(steps)) then Some(DependencyCycle)
    else None
  }

  function StateError(p: PlanSnapshot): Option<PlanError> {
    if !CompletionClosed(p.steps) then Some(IncompleteDependencies)
    else if p.status == Satisfied && exists s :: s in p.steps && !s.state.Completed? then Some(SatisfiedWithOpenSteps)
    else None
  }

  ghost function SnapshotError(p: PlanSnapshot): (e: Option<PlanError>)
    ensures e == None <==> ValidSnapshot(p)
  {
    if HeaderError(p) != None then HeaderError(p)
    else if GraphError(p.steps) != None then GraphError(p.steps)
    else StateError(p)
  }

  // What each refusal says is wrong.
  ghost predicate Flawed(p: PlanSnapshot, e: PlanError) {
    match e
    case RevisionNotPositive => p.revision < 1
    case ParentNotPositive => p.parentRevision.Some? && p.parentRevision.value < 1
    case InitialWithParent => p.revision == 1 && p.parentRevision.Some?
    case InitialWithReason => p.revision == 1 && p.revisionReason.Some?
    case ParentNotPrevious => p.revision > 1 && p.parentRevision != Some(p.revision - 1)
    case ReasonMissing => p.revision > 1 && p.revisionReason.None?
    case NoSteps => p.steps == []
    case WrongGoal => exists s :: s in p.steps && s.goalId != p.goalId
    case DuplicateStep => exists i, j :: 0 <= i < j < |p.steps| && p.steps[i].stepId == p.steps[j].stepId
    case UnknownDependency => exists s, d :: s in p.steps && d in s.dependsOn && d !in IdSet(p.steps)
    case DependencyCycle => exists c :: IsCycle(DependencyGraph(p.steps), c)
    case IncompleteDependencies =>
      exists s, d :: s in p.steps && s.state.Completed? && d in s.dependsOn && d !in CompletedIds(p.steps)
    case SatisfiedWithOpenSteps => p.status == Satisfied && exists s :: s in p.steps && !s.state.Completed?
    case _ => false
  }

  lemma HeaderErrorIsFlaw(p: PlanSnapshot)
    ensures HeaderError(p).Some? ==> Flawed(p, HeaderError(p).value)
    ensures HeaderError(p) == Some(ParentNotPositive) <==>
      p.revision >= 1 && p.parentRevision.Some? && p.parentRevision.value < 1
  {
  }

  lemma GraphErrorIsFlaw(p: PlanSnapshot)
    ensures GraphError(p.steps).Some? ==> Flawed(p, GraphError(p.steps).value)
  {
    if GraphError(p.steps) == Some(DuplicateStep) {
      var i, j :| 0 <= i < j < |p.steps| && Ids(p.steps)[i] == Ids(p.steps)[j];
      assert p.steps[i].stepId == p.steps[j].stepId;
    }
    if GraphError(p.steps) == Some(UnknownDependency) {
      var s :| s in p.steps && !(Elems(s.dependsOn) <= IdSet(p.steps));
      var d :| d in Elems(s.dependsOn) && d !in IdSet(p.steps);
    }
  }

  lemma StateErrorIsFlaw(p: PlanSnapshot)
    ensures StateError(p).Some? ==> Flawed(p, StateError(p).value)
  {
    if StateError(p) == Some(IncompleteDependencies) {
      var s :| s in p.steps && s.state.Completed? && !(Elems(s.dependsOn) <= CompletedIds(p.steps));
      var d :| d in Elems(s.dependsOn) && d !in CompletedIds(p.steps);
    }
  }

  lemma ErrorIsFlaw(p: PlanSnapshot)
    ensures SnapshotError(p).Some? ==> Flawed(p, SnapshotError(p).value)
  {
    HeaderErrorIsFlaw(p);
    GraphErrorIsFlaw(p);
    StateErrorIsFlaw(p);
  }

  lemma StepOfId(steps: seq<PlanStep>, s: PlanStep)
    requires Distinct(Ids(steps)) && s in steps
    ensures forall t :: t in steps && t.stepId == s.stepId ==> t == s
    ensures s.stepId in DependencyGraph(steps)
    ensures DependencyGraph(steps)[s.stepId] == Elems(s.dependsOn)
  {
    forall t | t in steps && t.stepId == s.stepId ensures t == s {
      var i :| 0 <= i < |steps| && steps[i] == s;
      var j :| 0 <= j < |steps| && steps[j] == t;
      assert Ids(steps)[i] == Ids(steps)[j];
      assert i == j;
    }
  }

  ghost predicate Indexes(byId: map<Id, seq<Id>>, steps: seq<PlanStep>) {
    byId.Keys == IdSet(steps) && forall s :: s in steps ==> byId[s.stepId] == s.dependsOn
  }

  lemma IndexIsGraph(byId: map<Id, seq<Id>>, steps: seq<PlanStep>)
    requires Distinct(Ids(steps)) && Indexes(byId, steps)
    ensures NeedsOf(byId) == DependencyGraph(steps)
    ensures Elems(Ids(steps)) == byId.Keys
  {
    forall id | id in byId ensures NeedsOf(byId)[id] == DependencyGraph(steps)[id] && id in Ids(steps) {
      var s :| s in steps && s.stepId == id;
      StepOfId(steps, s);
      var k :| 0 <= k < |steps| && steps[k] == s;
      assert Ids(steps)[k] == id;
    }
  }

  lemma IdsAppend(steps: seq<PlanStep>, s: PlanStep)
    ensures Ids(steps + [s]) == Ids(steps) + [s.stepId]
    ensures IdSet(steps + [s]) == IdSet(steps) + {s.stepId}
    ensures Elems(Ids(steps)) == IdSet(steps)
  {
    forall id | id in IdSet(steps) ensures id in Ids(steps) {
      var t :| t in steps && t.stepId == id;
      var k :| 0 <= k < |steps| && steps[k] == t;
      assert Ids(steps)[k] == id;
    }
    var longer := steps + [s];
    assert longer[|steps|] == s;
    forall id | id in IdSet(steps) ensures id in IdSet(longer) {
      var t :| t in steps && t.stepId == id;
      assert t in longer;
    }
  }

  // The id index built by the first loop of `_validate_graph`.
  method IndexSteps(steps: seq<PlanStep>) returns (byId: Option<map<Id, seq<Id>>>)
    ensures byId.Some? <==> Distinct(Ids(steps))
    ensures byId.Some? ==> Indexes(byId.value, steps)
  {
    var index: map<Id, seq<Id>> := map[];
    var i := 0;
    while i < |steps|
      invariant 0 <= i <= |steps|
      invariant Distinct(Ids(steps[..i])) && Indexes(index, steps[..i])
    {
      assert steps[..i + 1] == steps[..i] + [steps[i]];
      IdsAppend(steps[..i], steps[i]);
      if steps[i].stepId in index {
        var k :| 0 <= k < i && Ids(steps[..i])[k] == steps[i].stepId;
        assert Ids(steps)[k] == Ids(steps)[i];
        return None;
      }
      DistinctAppend(Ids(steps[..i]), steps[i].stepId);
      index := index[steps[i].stepId := steps[i].dependsOn];
      i := i + 1;
    }
    assert steps[..i] == steps;
    byId := Some(index);
  }

  // `_validate_graph`: the id index, the unknown-dependency scan, the search.
  method ValidateGraph(steps: seq<PlanStep>) returns (error: Option<PlanError>)
    ensures error == GraphError(steps)
  {
    var index := IndexSteps(steps);
    if index == None {
      return Some(DuplicateStep);
    }
    var byId := index.value;
    var i := 0;
    while i < |steps|
      invariant 0 <= i <= |steps|
      invariant forall k :: 0 <= k < i ==> Elems(steps[k].dependsOn) <= byId.Keys
    {
      if !(Elems(steps[i].dependsOn) <= byId.Keys) {
        assert steps[i] in steps;
        return Some(UnknownDependency);
      }
      i := i + 1;
    }
    IndexIsGraph(byId, steps);
    forall id | id in byId ensures Elems(byId[id]) <= byId.Keys {
      var s :| s in steps && s.stepId == id;
    }
    var ok := SearchForCycle(Ids(steps), byId);
    error := if ok then None else Some(DependencyCycle);
  }

  // The PlanSnapshot constructor.
  method NewSnapshot(p: PlanSnapshot) returns (r: Result<PlanSnapshot, PlanError>)
    ensures r == match SnapshotError(p) { case None => Ok(p) case Some(e) => Err(e) }
    ensures r.Ok? <==> ValidSnapshot(p)
    ensures r.Err? ==> Flawed(p, r.error)
  {
    ErrorIsFlaw(p);
    if HeaderError(p).Some? {
      return Err(HeaderError(p).value);
    }
    var graphError := ValidateGraph(p.steps);
    if graphError.Some? {
      return Err(graphError.value);
    }
    if StateError(p).Some? {
      return Err(StateError(p).value);
    }
    r := Ok(p);
  }

  // ---------- readiness ----------

  predicate Unlocked(s: PlanStep, completed: set<Id>) {
    !s.state.Completed? && Elems(s.dependsOn) <= completed
  }

  function ReadyAmong(steps: seq<PlanStep>, completed: set<Id>): (r: seq<Id>)
    ensures forall id :: id in r <==>
      exists s :: s in steps && s.stepId == id && s.state.Pending? && Unlocked(s, completed)
  {
    if steps == [] then []
    else
      var rest := ReadyAmong(steps[1..], completed);
      assert steps == [steps[0]] + steps[1..];
      if steps[0].state.Pending? && Unlocked(steps[0], completed) then [steps[0].stepId] + rest else rest
  }

  function ReadyStepIds(p: PlanSnapshot): (r: seq<Id>)
    ensures forall id :: id in r <==>
      p.status == Active
      && exists s :: s in p.steps && s.stepId == id && s.state.Pending? && Unlocked(s, CompletedIds(p.steps))
  {
    if p.status == Active then ReadyAmong(p.steps, CompletedIds(p.steps)) else []
  }

  // No validated plan is stuck: while a step is open, some open step has all
  // its dependencies completed.
  lemma SomeOpenStepIsUnlocked(p: PlanSnapshot)
    requires ValidSnapshot(p)
    requires exists s :: s in p.steps && !s.state.Completed?
    ensures exists s :: s in p.steps && Unlocked(s, CompletedIds(p.steps))
  {
    var g := DependencyGraph(p.steps);
    var completed := CompletedIds(p.steps);
    var open := IdSet(p.steps) - completed;
    var s :| s in p.steps && !s.state.Completed?;
    OpenStep(p, s);
    if forall id {:trigger g[id]} :: id in open ==> g[id] * open != {} {
      StuckSetHasCycle(g, open);
      assert false;
    } else {
      var id :| id in open && g[id] * open == {};
      var t :| t in p.steps && t.stepId == id;
      OpenStep(p, t);
      assert Elems(t.dependsOn) <= completed by {
        forall d | d in Elems(t.dependsOn) ensures d in completed {
          assert d !in g[id] * open;
        }
      }
    }
  }

  lemma OpenStep(p: PlanSnapshot, s: PlanStep)
    requires ValidSnapshot(p) && s in p.steps
    ensures s.state.Completed? <==> s.stepId in CompletedIds(p.steps)
    ensures s.stepId in IdSet(p.steps)
    ensures DependencyGraph(p.steps)[s.stepId] == Elems(s.dependsOn) <= IdSet(p.steps)
  {
    StepOfId(p.steps, s);
  }

  lemma ReadyUnlessBlocked(p: PlanSnapshot)
    requires ValidSnapshot(p) && p.status == Active
    ensures ReadyStepIds(p) == [] <==>
            forall s :: s in p.steps && Unlocked(s, CompletedIds(p.steps)) ==> s.state.Blocked?
  {
    var r := ReadyStepIds(p);
    if r != [] {
      assert r[0] in r;
    } else {
      forall s | s in p.steps && Unlocked(s, CompletedIds(p.steps)) ensures s.state.Blocked? {
        assert s.state.Pending? ==> s.stepId in r;
      }
    }
  }

  // ---------- completing steps one at a time ----------

  function Completing(s: PlanStep, id: Id): PlanStep {
    if s.stepId == id then s.(state := Completed) else s
  }

  function WithCompleted(steps: seq<PlanStep>, id: Id): seq<PlanStep> {
    seq(|steps|, i requires 0 <= i < |steps| => Completing(steps[i], id))
  }

  function MarkCompleted(p: PlanSnapshot, id: Id): PlanSnapshot {
    p.(steps := WithCompleted(p.steps, id))
  }

  function PendingCount(steps: seq<PlanStep>): nat {
    if steps == [] then 0 else (if steps[0].state.Pending? then 1 else 0) + PendingCount(steps[1..])
  }

  predicate NoneBlocked(p: PlanSnapshot) {
    forall s :: s in p.steps ==> !s.state.Blocked?
  }

  // Completing a step touches no identity and no dependency.
  lemma WithCompletedShape(steps: seq<PlanStep>, id: Id)
    ensures forall s :: s in steps ==> Completing(s, id) in WithCompleted(steps, id)
    ensures forall t :: t in WithCompleted(steps, id) ==> exists s :: s in steps && t == Completing(s, id)
    ensures Ids(WithCompleted(steps, id)) == Ids(steps)
    ensures IdSet(WithCompleted(steps, id)) == IdSet(steps)
  {
    var done := WithCompleted(steps, id);
    forall s | s in steps ensures Completing(s, id) in done {
      var i :| 0 <= i < |steps| && steps[i] == s;
      assert done[i] == Completing(s, id);
    }
    forall t | t in done ensures exists s :: s in steps && t == Completing(s, id) {
      var i :| 0 <= i < |done| && done[i] == t;
      assert steps[i] in steps;
    }
    IdsAppend(done, PlanStep("", "", Cmo, "", [], [], [], [], Pending));
    IdsAppend(steps, PlanStep("", "", Cmo, "", [], [], [], [], Pending));
  }

  lemma WithCompletedGraph(steps: seq<PlanStep>, id: Id)
    ensures DependencyGraph(WithCompleted(steps, id)) == DependencyGraph(steps)
  {
    WithCompletedShape(steps, id);
    var done := WithCompleted(steps, id);
    forall k | k in IdSet(steps) ensures NeedsOfStep(done, k) == NeedsOfStep(steps, k) {
      forall d | d in NeedsOfStep(steps, k) ensures d in NeedsOfStep(done, k) {
        var s :| s in steps && s.stepId == k && d in s.dependsOn;
        assert Completing(s, id) in done;
      }
    }
  }

  lemma WithCompletedIds(steps: seq<PlanStep>, id: Id)
    requires id in IdSet(steps)
    ensures CompletedIds(WithCompleted(steps, id)) == CompletedIds(steps) + {id}
  {
    WithCompletedShape(steps, id);
    var done := WithCompleted(steps, id);
    forall k | k in CompletedIds(steps) + {id} ensures k in CompletedIds(done) {
      var s :| s in steps && s.stepId == k && (k == id || s.state.Completed?);
      assert Completing(s, id) in done;
    }
  }

  lemma MarkCompletedSteps(p: PlanSnapshot, step: PlanStep)
    requires ValidSnapshot(p) && step in p.steps && Unlocked(step, CompletedIds(p.steps))
    ensures forall t :: t in WithCompleted(p.steps, step.stepId) ==>
              && t.goalId == p.goalId && Elems(t.dependsOn) <= IdSet(p.steps)
              && (t.state.Completed? ==> Elems(t.dependsOn) <= CompletedIds(p.steps))
              && (NoneBlocked(p) ==> !t.state.Blocked?)
  {
    var done := WithCompleted(p.steps, step.stepId);
    forall i | 0 <= i < |done|
      ensures var t := done[i];
              && t.goalId == p.goalId && Elems(t.dependsOn) <= IdSet(p.steps)
              && (t.state.Completed? ==> Elems(t.dependsOn) <= CompletedIds(p.steps))
              && (NoneBlocked(p) ==> !t.state.Blocked?)
    {
      CompletingStep(p, step, p.steps[i]);
    }
  }

  // Rebuilding a plan with a ready step completed passes validation again.
  lemma MarkCompletedValid(p: PlanSnapshot, id: Id)
    requires ValidSnapshot(p) && id in ReadyStepIds(p)
    ensures ValidSnapshot(MarkCompleted(p, id))
    ensures NoneBlocked(p) ==> NoneBlocked(MarkCompleted(p, id))
    ensures CompletedIds(MarkCompleted(p, id).steps) == CompletedIds(p.steps) + {id}
  {
    var step :| step in p.steps && step.stepId == id && Unlocked(step, CompletedIds(p.steps));
    WithCompletedIds(p.steps, id);
    WithCompletedGraph(p.steps, id);
    MarkCompletedSteps(p, step);
    SameIds(p.steps, id);
  }

  lemma SameIds(steps: seq<PlanStep>, id: Id)
    ensures Ids(WithCompleted(steps, id)) == Ids(steps)
    ensures IdSet(WithCompleted(steps, id)) == IdSet(steps)
  {
    WithCompletedShape(steps, id);
  }

  lemma CompletingStep(p: PlanSnapshot, step: PlanStep, s: PlanStep)
    requires ValidSnapshot(p) && s in p.steps && step in p.steps && Unlocked(step, CompletedIds(p.steps))
    ensures var t := Completing(s, step.stepId);
            t.goalId == p.goalId && Elems(t.dependsOn) <= IdSet(p.steps)
            && (t.state.Completed? ==> Elems(t.dependsOn) <= CompletedIds(p.steps))
            && (NoneBlocked(p) ==> !t.state.Blocked?)
  {
    StepOfId(p.steps, step);
  }

  lemma {:induction false} MarkCompletedCount(steps: seq<PlanStep>, id: Id)
    requires Distinct(Ids(steps))
    requires exists s :: s in steps && s.stepId == id && s.state.Pending?
    ensures PendingCount(WithCompleted(steps, id)) == PendingCount(steps) - 1
  {
    var done := WithCompleted(steps, id);
    assert done[1..] == WithCompleted(steps[1..], id);
    assert Ids(steps)[1..] == Ids(steps[1..]);
    if steps[0].stepId == id {
      StepOfId(steps, steps[0]);
      forall i | 0 <= i < |steps[1..]| ensures steps[1..][i].stepId != id {
        assert Ids(steps)[0] != Ids(steps)[i + 1];
      }
      assert WithCompleted(steps[1..], id) == steps[1..];
    } else {
      MarkCompletedCount(steps[1..], id);
    }
  }

  // Any sequence of moves, each completing some ready step of the plan so far.
  ghost predicate GreedyRun(p: PlanSnapshot, moves: seq<Id>, q: PlanSnapshot)
    decreases |moves|
  {
    if moves == [] then q == p
    else moves[0] in ReadyStepIds(p) && GreedyRun(MarkCompleted(p, moves[0]), moves[1..], q)
  }

  lemma {:induction false} GreedyRunKeeps(p: PlanSnapshot, moves: seq<Id>, q: PlanSnapshot)
    requires ValidSnapshot(p) && GreedyRun(p, moves, q)
    ensures ValidSnapshot(q) && q.status == p.status
    ensures NoneBlocked(p) ==> NoneBlocked(q)
    ensures PendingCount(q.steps) == PendingCount(p.steps) - |moves|
    decreases |moves|
  {
    if moves != [] {
      MarkCompletedValid(p, moves[0]);
      MarkCompletedCount(p.steps, moves[0]);
      GreedyRunKeeps(MarkCompleted(p, moves[0]), moves[1..], q);
    }
  }

  lemma {:induction false} NoPendingNoCount(steps: seq<PlanStep>)
    ensures PendingCount(steps) == 0 <==> forall s :: s in steps ==> !s.state.Pending?
  {
    if steps != [] {
      assert steps == [steps[0]] + steps[1..];
      NoPendingNoCount(steps[1..]);
    }
  }

  // With nothing blocked, a greedy run cannot stop early, whatever order it
  // picks, and it stops after exactly as many moves as there were pending steps.
  lemma GreedyRunCompletes(p: PlanSnapshot, moves: seq<Id>, q: PlanSnapshot)
    requires ValidSnapshot(p) && p.status == Active && NoneBlocked(p) && GreedyRun(p, moves, q)
    ensures |moves| <= PendingCount(p.steps)
    ensures ReadyStepIds(q) == [] <==> |moves| == PendingCount(p.steps)
    ensures |moves| == PendingCount(p.steps) <==> forall s :: s in q.steps ==> s.state.Completed?
  {
    GreedyRunKeeps(p, moves, q);
    NoPendingNoCount(q.steps);
    ReadyUnlessBlocked(q);
    if exists s :: s in q.steps && !s.state.Completed? {
      SomeOpenStepIsUnlocked(q);
    }
  }
}
