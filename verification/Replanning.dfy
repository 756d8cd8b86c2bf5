// Plan revision (brain/planning.py) and its adaptive front end
// (brain/adaptive_replanning.py).
module Replanning {
  import opened Foundation
  import opened Digraphs
  import opened Planning

  datatype Trigger =
    | NewEvidence | Contradiction | UserSteering | FailedAssumption
    | ChangedContext | BlockedDependency | BetterPath

  datatype PlanRevision = PlanRevision(
    revisionId: string, planId: Id, fromRevision: int, trigger: Trigger, reason: string,
    preserved: seq<Id>, invalidated: seq<Id>, replacements: seq<PlanStep>)

  // The PlanRevision constructor.
  function RevisionError(v: PlanRevision): Option<PlanError> {
    if v.fromRevision < 1 then Some(RevisionNotPositive)
    else if Elems(v.preserved) * Elems(v.invalidated) != {} then Some(PreservedAndInvalidated)
    else if v.invalidated == [] && v.replacements == [] then Some(EmptyRevision)
    else None
  }

  // What the constructor accepts, and what each error says is wrong.
  predicate WellFormed(v: PlanRevision) {
    && v.fromRevision >= 1
    && (forall id :: id in v.preserved ==> id !in v.invalidated)
    && (v.invalidated != [] || v.replacements != [])
  }

  lemma RevisionErrorMeans(v: PlanRevision)
    ensures RevisionError(v) == None <==> WellFormed(v)
    ensures RevisionError(v) == Some(RevisionNotPositive) <==> v.fromRevision < 1
    ensures RevisionError(v) == Some(PreservedAndInvalidated) <==>
      v.fromRevision >= 1 && exists id :: id in v.preserved && id in v.invalidated
    ensures RevisionError(v) == Some(EmptyRevision) ==> v.invalidated == [] && v.replacements == []
    ensures RevisionError(v) in {None, Some(RevisionNotPositive), Some(PreservedAndInvalidated), Some(EmptyRevision)}
  {
    if Elems(v.preserved) * Elems(v.invalidated) != {} {
      var id :| id in Elems(v.preserved) * Elems(v.invalidated);
      assert id in v.preserved && id in v.invalidated;
    } else {
      forall id | id in v.preserved ensures id !in v.invalidated {
        assert id !in Elems(v.preserved) * Elems(v.invalidated);
      }
    }
  }

  function KeepSteps(steps: seq<PlanStep>, ids: set<Id>): seq<PlanStep> {
    if steps == [] then []
    else if steps[0].stepId in ids then [steps[0]] + KeepSteps(steps[1..], ids)
    else KeepSteps(steps[1..], ids)
  }

  function Candidate(p: PlanSnapshot, v: PlanRevision): PlanSnapshot {
    PlanSnapshot(p.planId, p.goalId, p.revision + 1,
                 KeepSteps(p.steps, Elems(v.preserved)) + v.replacements,
                 Active, Some(p.revision), Some(v.reason))
  }

  // The checks `apply_plan_revision` makes before it builds the candidate.
  function ApplyError(p: PlanSnapshot, v: PlanRevision): Option<PlanError> {
    var existing := IdSet(p.steps);
    var classified := Elems(v.preserved) + Elems(v.invalidated);
    if p.status in {Satisfied, Abandoned} then Some(TerminalPlan)
    else if v.planId != p.planId then Some(WrongPlan)
    else if v.fromRevision != p.revision then Some(WrongRevision)
    else if !(classified <= existing) then Some(UnknownSteps)
    else if !(existing <= classified) then Some(UnclassifiedSteps)
    else if !Distinct(Ids(v.replacements)) then Some(DuplicateReplacement)
    else if IdSet(v.replacements) * existing != {} then Some(ReusedIdentity)
    else if Candidate(p, v).steps == [] then Some(EmptyResult)
    else None
  }

  ghost function Revised(p: PlanSnapshot, v: PlanRevision): Result<PlanSnapshot, PlanError> {
    if ApplyError(p, v).Some? then Err(ApplyError(p, v).value)
    else match SnapshotError(Candidate(p, v))
      case None => Ok(Candidate(p, v))
      case Some(e) => Err(e)
  }

  method ApplyPlanRevision(p: PlanSnapshot, v: PlanRevision) returns (r: Result<PlanSnapshot, PlanError>)
    requires ValidSnapshot(p) && WellFormed(v)
    ensures r == Revised(p, v)
    ensures r.Ok? <==> Acceptable(p, v)
    ensures r.Ok? ==> ValidSnapshot(r.value) && Follows(p, v, r.value)
    ensures r.Err? ==> Refused(p, v, r.error)
  {
    RevisionAcceptedIff(p, v);
    RefusalNamesFlaw(p, v);
    var error := ApplyError(p, v);
    if error.Some? {
      return Err(error.value);
    }
    r := NewSnapshot(Candidate(p, v));
  }

  // ---------- what is kept ----------

  lemma {:induction false} KeepStepsMembers(steps: seq<PlanStep>, ids: set<Id>)
    ensures forall s :: s in KeepSteps(steps, ids) <==> s in steps && s.stepId in ids
  {
    if steps != [] {
      assert steps == [steps[0]] + steps[1..];
      KeepStepsMembers(steps[1..], ids);
    }
  }

  lemma {:induction false} KeepStepsAppend(a: seq<PlanStep>, b: seq<PlanStep>, ids: set<Id>)
    ensures KeepSteps(a + b, ids) == KeepSteps(a, ids) + KeepSteps(b, ids)
  {
    if a == [] {
      assert a + b == b;
    } else {
      assert (a + b)[1..] == a[1..] + b;
      KeepStepsAppend(a[1..], b, ids);
    }
  }

  lemma {:induction false} KeepStepsTwice(steps: seq<PlanStep>, ids: set<Id>, more: set<Id>)
    ensures KeepSteps(KeepSteps(steps, ids), more) == KeepSteps(steps, ids * more)
  {
    if steps != [] {
      KeepStepsTwice(steps[1..], ids, more);
      if steps[0].stepId in ids {
        assert KeepSteps(steps, ids)[1..] == KeepSteps(steps[1..], ids);
      }
    }
  }

  lemma {:induction false} KeepAll(steps: seq<PlanStep>, ids: set<Id>)
    requires IdSet(steps) <= ids
    ensures KeepSteps(steps, ids) == steps
  {
    if steps != [] {
      assert steps == [steps[0]] + steps[1..];
      assert steps[0].stepId in IdSet(steps);
      forall id | id in IdSet(steps[1..]) ensures id in ids {
        var s :| s in steps[1..] && s.stepId == id;
        assert s in steps;
      }
      KeepAll(steps[1..], ids);
    }
  }

  lemma {:induction false} KeepStepsDistinct(steps: seq<PlanStep>, ids: set<Id>)
    requires Distinct(Ids(steps))
    ensures Distinct(Ids(KeepSteps(steps, ids)))
    ensures Elems(Ids(KeepSteps(steps, ids))) <= Elems(Ids(steps))
  {
    if steps != [] {
      assert Ids(steps)[1..] == Ids(steps[1..]);
      assert Ids(steps) == [steps[0].stepId] + Ids(steps[1..]);
      KeepStepsDistinct(steps[1..], ids);
      ElemsAppend([steps[0].stepId], Ids(steps[1..]));
      var kept := KeepSteps(steps[1..], ids);
      if steps[0].stepId in ids {
        assert Ids([steps[0]] + kept) == [steps[0].stepId] + Ids(kept);
        ElemsAppend([steps[0].stepId], Ids(kept));
        ElemsAppend([steps[0].stepId], Ids(steps[1..]));
        forall k | 0 <= k < |kept| ensures Ids(kept)[k] != steps[0].stepId {
          assert Ids(kept)[k] in Elems(Ids(kept));
          var j :| 0 <= j < |steps[1..]| && Ids(steps[1..])[j] == Ids(kept)[k];
          assert Ids(steps)[j + 1] != Ids(steps)[0];
        }
      }
    }
  }

  // ---------- when a revision is accepted ----------

  predicate KeptClosed(p: PlanSnapshot, v: PlanRevision) {
    forall s :: s in p.steps && s.stepId in v.preserved ==> Elems(s.dependsOn) <= Elems(v.preserved)
  }

  predicate ReplacementsResolve(v: PlanRevision) {
    forall s :: s in v.replacements ==> Elems(s.dependsOn) <= Elems(v.preserved) + IdSet(v.replacements)
  }

  predicate ReplacementsComplete(p: PlanSnapshot, v: PlanRevision) {
    forall s :: s in v.replacements && s.state.Completed? ==>
                  Elems(s.dependsOn) <= CompletedIds(Candidate(p, v).steps)
  }

  predicate ReplacementGoals(p: PlanSnapshot, v: PlanRevision) {
    forall s :: s in v.replacements ==> s.goalId == p.goalId
  }

  lemma CandidateIds(p: PlanSnapshot, v: PlanRevision)
    requires ValidSnapshot(p) && ApplyError(p, v) == None
    ensures var c := Candidate(p, v).steps;
            && IdSet(c) == Elems(v.preserved) + IdSet(v.replacements)
            && (forall s :: s in c <==> (s in p.steps && s.stepId in v.preserved) || s in v.replacements)
            && Elems(v.preserved) <= IdSet(p.steps)
  {
    var c := Candidate(p, v).steps;
    KeepStepsMembers(p.steps, Elems(v.preserved));
    forall id | id in Elems(v.preserved) ensures id in IdSet(c) {
      assert id in IdSet(p.steps);
      var s :| s in p.steps && s.stepId == id;
      assert s in c;
    }
    forall id | id in IdSet(v.replacements) ensures id in IdSet(c) {
      var s :| s in v.replacements && s.stepId == id;
      assert s in c;
    }
  }

  lemma CandidateDistinct(p: PlanSnapshot, v: PlanRevision)
    requires ValidSnapshot(p) && ApplyError(p, v) == None
    ensures Distinct(Ids(Candidate(p, v).steps))
  {
    var kept := KeepSteps(p.steps, Elems(v.preserved));
    KeepStepsDistinct(p.steps, Elems(v.preserved));
    ElemsOfIds(p.steps);
    ElemsOfIds(v.replacements);
    assert Ids(kept + v.replacements) == Ids(kept) + Ids(v.replacements);
    forall i, j | 0 <= i < |kept| && 0 <= j < |v.replacements|
      ensures Ids(kept)[i] != Ids(v.replacements)[j]
    {
      assert Ids(kept)[i] in Elems(Ids(kept));
      assert Ids(kept)[i] in IdSet(p.steps);
      assert Ids(v.replacements)[j] in IdSet(v.replacements);
      assert Ids(kept)[i] !in IdSet(v.replacements) * IdSet(p.steps);
    }
  }

  lemma ElemsOfIds(steps: seq<PlanStep>)
    ensures Elems(Ids(steps)) == IdSet(steps)
  {
    forall s | s in steps ensures s.stepId in Ids(steps) {
      var k :| 0 <= k < |steps| && steps[k] == s;
      assert Ids(steps)[k] == s.stepId;
    }
  }

  lemma CandidateNeeds(p: PlanSnapshot, v: PlanRevision, s: PlanStep)
    requires ValidSnapshot(p) && ApplyError(p, v) == None
    requires s in Candidate(p, v).steps
    ensures var g := DependencyGraph(Candidate(p, v).steps);
            && s.stepId in g && g[s.stepId] == Elems(s.dependsOn)
            && (s.stepId in v.preserved ==>
                  s in p.steps && g[s.stepId] == DependencyGraph(p.steps)[s.stepId] <= IdSet(p.steps))
            && (s.stepId !in v.preserved ==>
                  s in v.replacements && g[s.stepId] == DependencyGraph(v.replacements)[s.stepId])
  {
    CandidateIds(p, v);
    CandidateDistinct(p, v);
    StepOfId(Candidate(p, v).steps, s);
    if s in p.steps {
      StepOfId(p.steps, s);
    } else {
      StepOfId(v.replacements, s);
    }
    if s in v.replacements && s.stepId in v.preserved {
      assert s.stepId in IdSet(v.replacements) * IdSet(p.steps);
    }
  }

  lemma KeptNeedKept(p: PlanSnapshot, v: PlanRevision, a: Id, b: Id)
    requires ValidSnapshot(p) && ApplyError(p, v) == None
    requires var g := DependencyGraph(Candidate(p, v).steps);
             a in v.preserved && a in g && b in g[a] && b in g
    ensures b in v.preserved && a in DependencyGraph(p.steps) && b in DependencyGraph(p.steps)[a]
  {
    CandidateIds(p, v);
    var s :| s in Candidate(p, v).steps && s.stepId == a;
    CandidateNeeds(p, v, s);
    assert b !in IdSet(v.replacements) * IdSet(p.steps);
  }

  lemma KeptNodesOnNoCycle(p: PlanSnapshot, v: PlanRevision, c: seq<Id>, k: nat)
    requires ValidSnapshot(p) && ApplyError(p, v) == None
    requires IsCycle(DependencyGraph(Candidate(p, v).steps), c) && k < |c|
    ensures c[k] !in v.preserved
  {
    var g := DependencyGraph(Candidate(p, v).steps);
    var h := DependencyGraph(p.steps);
    if c[k] in v.preserved {
      forall a, b | a in Elems(v.preserved) && a in g && b in g[a] && b in g
        ensures b in Elems(v.preserved)
      {
        KeptNeedKept(p, v, a, b);
      }
      CycleStaysInClosedSet(g, Elems(v.preserved), c, k);
      forall i, j | 0 <= i && j == i + 1 < |c| ensures Edge(h, c[i], c[j]) {
        assert c[i] in Elems(c);
        KeptNeedKept(p, v, c[i], c[j]);
      }
      CycleFromEdges(h, c);
      assert false;
    }
  }

  // A preserved step cannot need a replacement, so a dependency cycle that a
  // revision introduces runs through replacement steps only.
  lemma CyclesAreAmongReplacements(p: PlanSnapshot, v: PlanRevision, c: seq<Id>)
    requires ValidSnapshot(p) && ApplyError(p, v) == None
    requires IsCycle(DependencyGraph(Candidate(p, v).steps), c)
    ensures Elems(c) <= IdSet(v.replacements)
    ensures IsCycle(DependencyGraph(v.replacements), c)
  {
    CandidateIds(p, v);
    var steps := Candidate(p, v).steps;
    var g := DependencyGraph(steps);
    var h := DependencyGraph(v.replacements);
    forall k | 0 <= k < |c| ensures c[k] in h && g[c[k]] <= h[c[k]] {
      KeptNodesOnNoCycle(p, v, c, k);
      var s :| s in steps && s.stepId == c[k];
      CandidateNeeds(p, v, s);
    }
    CycleTransfers(g, h, c);
  }

  lemma ReplacementCycleIsCandidateCycle(p: PlanSnapshot, v: PlanRevision, c: seq<Id>)
    requires ValidSnapshot(p) && ApplyError(p, v) == None
    requires IsCycle(DependencyGraph(v.replacements), c)
    ensures IsCycle(DependencyGraph(Candidate(p, v).steps), c)
  {
    CandidateIds(p, v);
    var g := DependencyGraph(Candidate(p, v).steps);
    forall id | id in c ensures id in g && DependencyGraph(v.replacements)[id] <= g[id] {
      assert id in IdSet(v.replacements);
      var s :| s in v.replacements && s.stepId == id;
      CandidateNeeds(p, v, s);
      StepOfId(v.replacements, s);
    }
    CycleTransfers(DependencyGraph(v.replacements), g, c);
  }

  lemma CandidateAcyclicIff(p: PlanSnapshot, v: PlanRevision)
    requires ValidSnapshot(p) && ApplyError(p, v) == None
    ensures Acyclic(DependencyGraph(Candidate(p, v).steps)) <==> Acyclic(DependencyGraph(v.replacements))
  {
    forall c
      ensures IsCycle(DependencyGraph(Candidate(p, v).steps), c) <==> IsCycle(DependencyGraph(v.replacements), c)
    {
      if IsCycle(DependencyGraph(Candidate(p, v).steps), c) { CyclesAreAmongReplacements(p, v, c); }
      if IsCycle(DependencyGraph(v.replacements), c) { ReplacementCycleIsCandidateCycle(p, v, c); }
    }
  }

  lemma CandidateResolvesIff(p: PlanSnapshot, v: PlanRevision)
    requires ValidSnapshot(p) && ApplyError(p, v) == None
    ensures DependenciesResolve(Candidate(p, v).steps) <==> KeptClosed(p, v) && ReplacementsResolve(v)
  {
    CandidateIds(p, v);
    var steps := Candidate(p, v).steps;
    forall s | s in steps && s.stepId in v.preserved
      ensures Elems(s.dependsOn) <= IdSet(steps) <==> Elems(s.dependsOn) <= Elems(v.preserved)
    {
      CandidateNeeds(p, v, s);
      forall d | d in Elems(s.dependsOn) ensures d !in IdSet(v.replacements) {
        assert d !in IdSet(v.replacements) * IdSet(p.steps);
      }
    }
  }

  lemma CandidateCompletionIff(p: PlanSnapshot, v: PlanRevision)
    requires ValidSnapshot(p) && ApplyError(p, v) == None && KeptClosed(p, v)
    ensures CompletionClosed(Candidate(p, v).steps) <==> ReplacementsComplete(p, v)
  {
    CandidateIds(p, v);
    var steps := Candidate(p, v).steps;
    forall s | s in p.steps && s.stepId in v.preserved && s.state.Completed?
      ensures Elems(s.dependsOn) <= CompletedIds(steps)
    {
      forall d | d in Elems(s.dependsOn) ensures d in CompletedIds(steps) {
        assert d in CompletedIds(p.steps) && d in Elems(v.preserved);
        var t :| t in p.steps && t.state.Completed? && t.stepId == d;
        assert t in steps;
      }
    }
  }

  // The revision is of this plan, still open, at this revision.
  predicate OfThisPlan(p: PlanSnapshot, v: PlanRevision) {
    (p.status == Active || p.status == NeedsRevision) && v.planId == p.planId && v.fromRevision == p.revision
  }

  // It names every step of the plan as preserved or invalidated, and no other.
  predicate Classifies(p: PlanSnapshot, v: PlanRevision) {
    && (forall s :: s in p.steps ==> s.stepId in v.preserved || s.stepId in v.invalidated)
    && (forall id :: id in v.preserved + v.invalidated ==> exists s :: s in p.steps && s.stepId == id)
  }

  // Its replacements have ids of their own, and something is left to do.
  predicate BringsFresh(p: PlanSnapshot, v: PlanRevision) {
    && Distinct(Ids(v.replacements))
    && (forall s, t :: s in p.steps && t in v.replacements ==> s.stepId != t.stepId)
    && (v.replacements != [] || exists s :: s in p.steps && s.stepId in v.preserved)
  }

  lemma ClassifiesIff(p: PlanSnapshot, v: PlanRevision)
    ensures Classifies(p, v) <==> Elems(v.preserved) + Elems(v.invalidated) == IdSet(p.steps)
  {
    var named := v.preserved + v.invalidated;
    ElemsAppend(v.preserved, v.invalidated);
    assert forall id :: id in named <==> id in Elems(v.preserved) + Elems(v.invalidated);
    if Classifies(p, v) {
      assert forall id :: id in named <==> id in IdSet(p.steps);
    } else if Elems(v.preserved) + Elems(v.invalidated) == IdSet(p.steps) {
      forall s | s in p.steps ensures s.stepId in v.preserved || s.stepId in v.invalidated {
        assert s.stepId in IdSet(p.steps);
      }
    }
  }

  lemma BringsFreshIff(p: PlanSnapshot, v: PlanRevision)
    ensures BringsFresh(p, v) <==>
      Distinct(Ids(v.replacements)) && IdSet(v.replacements) * IdSet(p.steps) == {} && Candidate(p, v).steps != []
  {
    var kept := KeepSteps(p.steps, Elems(v.preserved));
    KeepStepsMembers(p.steps, Elems(v.preserved));
    if kept != [] { assert kept[0] in p.steps && kept[0].stepId in v.preserved; }
    if IdSet(v.replacements) * IdSet(p.steps) == {} {
      forall s, t | s in p.steps && t in v.replacements ensures s.stepId != t.stepId {
        assert t.stepId !in IdSet(v.replacements) * IdSet(p.steps);
      }
    }
  }

  lemma ApplyErrorIff(p: PlanSnapshot, v: PlanRevision)
    ensures ApplyError(p, v) == None <==> OfThisPlan(p, v) && Classifies(p, v) && BringsFresh(p, v)
  {
    ClassifiesIff(p, v);
    BringsFreshIff(p, v);
  }

  ghost predicate Acceptable(p: PlanSnapshot, v: PlanRevision) {
    && OfThisPlan(p, v) && Classifies(p, v) && BringsFresh(p, v)
    && ReplacementGoals(p, v) && KeptClosed(p, v) && ReplacementsResolve(v)
    && Acyclic(DependencyGraph(v.replacements)) && ReplacementsComplete(p, v)
  }

  // The plan after the revision: the next revision of the same plan, active,
  // with the preserved steps first, in their order, and the replacements last.
  predicate Follows(p: PlanSnapshot, v: PlanRevision, q: PlanSnapshot) {
    && q.planId == p.planId && q.goalId == p.goalId && q.status == Active
    && q.revision == p.revision + 1 && q.parentRevision == Some(p.revision) && q.revisionReason == Some(v.reason)
    && q.steps == KeepSteps(p.steps, Elems(v.preserved)) + v.replacements
  }

  // What each refusal says is wrong; a candidate's flaw lies in the candidate.
  ghost predicate Refused(p: PlanSnapshot, v: PlanRevision, e: PlanError) {
    match e
    case TerminalPlan => p.status == Satisfied || p.status == Abandoned
    case WrongPlan => v.planId != p.planId
    case WrongRevision => v.fromRevision != p.revision
    case UnknownSteps => exists id :: id in v.preserved + v.invalidated && id !in IdSet(p.steps)
    case UnclassifiedSteps => exists s :: s in p.steps && s.stepId !in v.preserved && s.stepId !in v.invalidated
    case DuplicateReplacement => !Distinct(Ids(v.replacements))
    case ReusedIdentity => exists s :: s in v.replacements && s.stepId in IdSet(p.steps)
    case EmptyResult => v.replacements == [] && forall s :: s in p.steps ==> s.stepId !in v.preserved
    case _ => Flawed(Candidate(p, v), e)
  }

  lemma RefusalNamesFlaw(p: PlanSnapshot, v: PlanRevision)
    ensures Revised(p, v).Err? ==> Refused(p, v, Revised(p, v).error)
  {
    ErrorIsFlaw(Candidate(p, v));
    if ApplyError(p, v).Some? { ApplyErrorMeans(p, v); }
  }

  lemma ApplyErrorMeans(p: PlanSnapshot, v: PlanRevision)
    requires ApplyError(p, v).Some?
    ensures Refused(p, v, ApplyError(p, v).value)
  {
    var classified := Elems(v.preserved) + Elems(v.invalidated);
    match ApplyError(p, v).value {
      case UnknownSteps =>
        var id :| id in classified && id !in IdSet(p.steps);
        assert id in v.preserved + v.invalidated;
      case UnclassifiedSteps =>
        var id :| id in IdSet(p.steps) && id !in classified;
        var s :| s in p.steps && s.stepId == id;
      case ReusedIdentity =>
        var id :| id in IdSet(v.replacements) && id in IdSet(p.steps);
        var s :| s in v.replacements && s.stepId == id;
      case EmptyResult => KeepStepsMembers(p.steps, Elems(v.preserved));
      case _ =>
    }
  }

  // The exact acceptance condition of `apply_plan_revision` on a validated
  // plan: cycle freedom is needed among the replacements only.
  lemma RevisionAcceptedIff(p: PlanSnapshot, v: PlanRevision)
    requires ValidSnapshot(p)
    ensures Revised(p, v).Ok? <==> Acceptable(p, v)
    ensures Revised(p, v).Ok? ==> ValidSnapshot(Revised(p, v).value) && Follows(p, v, Revised(p, v).value)
  {
    ApplyErrorIff(p, v);
    if ApplyError(p, v) == None {
      CandidateIds(p, v);
      CandidateDistinct(p, v);
      CandidateAcyclicIff(p, v);
      CandidateResolvesIff(p, v);
      if KeptClosed(p, v) { CandidateCompletionIff(p, v); }
    }
  }

  // ---------- chains of revisions ----------

  ghost predicate RevisionChain(plans: seq<PlanSnapshot>, revs: seq<PlanRevision>) {
    && |plans| == |revs| + 1 && ValidSnapshot(plans[0])
    && forall i :: 0 <= i < |revs| ==> Revised(plans[i], revs[i]) == Ok(plans[i + 1])
  }

  // The ids that every revision of the chain preserved.
  function Survivors(ids: set<Id>, revs: seq<PlanRevision>): set<Id> {
    if revs == [] then ids else Survivors(ids, revs[..|revs| - 1]) * Elems(revs[|revs| - 1].preserved)
  }

  // After any number of revisions the surviving steps stand unchanged, in their
  // original order, in front of everything newer.
  lemma {:induction false} ChainKeepsSurvivors(plans: seq<PlanSnapshot>, revs: seq<PlanRevision>)
    requires RevisionChain(plans, revs)
    ensures var n := |revs|;
            && ValidSnapshot(plans[n])
            && plans[n].revision == plans[0].revision + n
            && plans[n].planId == plans[0].planId && plans[n].goalId == plans[0].goalId
            && KeepSteps(plans[0].steps, Survivors(IdSet(plans[0].steps), revs)) <= plans[n].steps
    decreases |revs|
  {
    var n := |revs|;
    var first := plans[0].steps;
    if n == 0 {
      KeepAll(first, IdSet(first));
    } else {
      var v := revs[n - 1];
      var ids := Survivors(IdSet(first), revs[..n - 1]);
      assert RevisionChain(plans[..n], revs[..n - 1]);
      ChainKeepsSurvivors(plans[..n], revs[..n - 1]);
      assert plans[n - 1] == plans[..n][n - 1];
      assert Revised(plans[n - 1], v) == Ok(plans[n]);
      RevisionAcceptedIff(plans[n - 1], v);
      SurvivorsStayInFront(first, ids, plans[n - 1].steps, v);
    }
  }

  lemma SurvivorsStayInFront(first: seq<PlanStep>, ids: set<Id>, steps: seq<PlanStep>, v: PlanRevision)
    requires KeepSteps(first, ids) <= steps
    ensures KeepSteps(first, ids * Elems(v.preserved)) <= KeepSteps(steps, Elems(v.preserved)) + v.replacements
  {
    var kept := KeepSteps(first, ids);
    var newer := steps[|kept|..];
    assert steps == kept + newer;
    KeepStepsAppend(kept, newer, Elems(v.preserved));
    KeepStepsTwice(first, ids, Elems(v.preserved));
  }

  // One link of a chain: the new ids are the preserved and the replacement
  // ones, and no replacement id is in the plan it revises.
  lemma ChainLink(plans: seq<PlanSnapshot>, revs: seq<PlanRevision>, i: nat)
    requires RevisionChain(plans, revs) && i < |revs|
    ensures IdSet(plans[i + 1].steps) == Elems(revs[i].preserved) + IdSet(revs[i].replacements)
    ensures Elems(revs[i].preserved) <= IdSet(plans[i].steps)
    ensures IdSet(revs[i].replacements) * IdSet(plans[i].steps) == {}
  {
    assert RevisionChain(plans[..i + 1], revs[..i]);
    ChainKeepsSurvivors(plans[..i + 1], revs[..i]);
    assert Revised(plans[i], revs[i]) == Ok(plans[i + 1]);
    CandidateIds(plans[i], revs[i]);
  }

  // An id that has left the plan is never used again.
  predicate NoIdReturns(plans: seq<PlanSnapshot>) {
    forall i, j, k, id :: 0 <= i < j < k < |plans| && id in IdSet(plans[i].steps) && id !in IdSet(plans[j].steps) ==>
      id !in IdSet(plans[k].steps)
  }

  // No replacement takes an id that any plan of the chain so far has used.
  predicate FreshOverHistory(plans: seq<PlanSnapshot>, revs: seq<PlanRevision>)
    requires |plans| == |revs| + 1
  {
    forall i, j :: 0 <= j <= i < |revs| ==> IdSet(revs[i].replacements) * IdSet(plans[j].steps) == {}
  }

  lemma {:induction false} GoneStaysGone(plans: seq<PlanSnapshot>, revs: seq<PlanRevision>, i: nat, j: nat, k: nat,
                                         id: Id)
    requires RevisionChain(plans, revs) && FreshOverHistory(plans, revs) && i < j <= k < |plans|
    requires id in IdSet(plans[i].steps) && id !in IdSet(plans[j].steps)
    ensures id !in IdSet(plans[k].steps)
  {
    if j < k {
      GoneStaysGone(plans, revs, i, j, k - 1, id);
      ChainLink(plans, revs, k - 1);
      assert id !in IdSet(revs[k - 1].replacements) * IdSet(plans[i].steps);
    }
  }

  // Each revision is checked against the plan it revises only. Over a whole
  // chain step ids keep their identity if and only if every revision's
  // replacement ids are new to the history.
  lemma NoIdReturnsIff(plans: seq<PlanSnapshot>, revs: seq<PlanRevision>)
    requires RevisionChain(plans, revs)
    ensures NoIdReturns(plans) <==> FreshOverHistory(plans, revs)
  {
    if FreshOverHistory(plans, revs) {
      forall i, j, k, id |
        0 <= i < j < k < |plans| && id in IdSet(plans[i].steps) && id !in IdSet(plans[j].steps)
        ensures id !in IdSet(plans[k].steps)
      {
        GoneStaysGone(plans, revs, i, j, k, id);
      }
    }
    if NoIdReturns(plans) {
      forall i, j | 0 <= j <= i < |revs| ensures IdSet(revs[i].replacements) * IdSet(plans[j].steps) == {} {
        ReusedIdReturned(plans, revs, i, j);
      }
    }
  }

  lemma ReusedIdReturned(plans: seq<PlanSnapshot>, revs: seq<PlanRevision>, i: nat, j: nat)
    requires RevisionChain(plans, revs) && NoIdReturns(plans) && j <= i < |revs|
    ensures IdSet(revs[i].replacements) * IdSet(plans[j].steps) == {}
  {
    ChainLink(plans, revs, i);
    forall id | id in IdSet(revs[i].replacements) ensures id !in IdSet(plans[j].steps) {
      assert id in IdSet(plans[i + 1].steps);
      assert id !in IdSet(revs[i].replacements) * IdSet(plans[i].steps);
    }
  }

  // A chain where one does not: an invalidated id comes back with another meaning.
  function SoleStep(id: Id, objective: string): PlanStep {
    PlanStep(id, "g", Cmo, objective, [], [], [], [], Pending)
  }

  function Swap(p: PlanSnapshot, t: PlanStep): PlanRevision
    requires p.steps != []
  {
    PlanRevision("r", p.planId, p.revision, BetterPath, "why", [], [p.steps[0].stepId], [t])
  }

  lemma SwapSoleStep(p: PlanSnapshot, s: PlanStep, t: PlanStep)
    requires ValidSnapshot(p) && p.steps == [s] && p.status == Active && s.stepId != t.stepId
    requires t.goalId == p.goalId && t.dependsOn == [] && t.state.Pending?
    ensures Revised(p, Swap(p, t)) == Ok(Candidate(p, Swap(p, t)))
    ensures Candidate(p, Swap(p, t)).steps == [t]
  {
    var v := Swap(p, t);
    var c := Candidate(p, v);
    assert KeepSteps(p.steps, Elems(v.preserved)) == [];
    assert c.steps == [t];
    SoleStepPlanValid(c, t);
    assert IdSet([s]) == {s.stepId} && IdSet([t]) == {t.stepId};
    assert Elems(v.preserved) + Elems(v.invalidated) == {s.stepId};
  }

  lemma InvalidatedIdCanReturn()
    ensures exists plans: seq<PlanSnapshot>, revs: seq<PlanRevision> ::
              && RevisionChain(plans, revs) && |revs| == 2
              && plans[0].steps == [SoleStep("a", "old")] && plans[2].steps == [SoleStep("a", "new")]
              && !NoIdReturns(plans)
  {
    var before, mid, after := SoleStep("a", "old"), SoleStep("b", "mid"), SoleStep("a", "new");
    var p0 := PlanSnapshot("p", "g", 1, [before], Active, None, None);
    SoleStepPlanValid(p0, before);
    SwapSoleStep(p0, before, mid);
    var p1 := Candidate(p0, Swap(p0, mid));
    SoleStepPlanValid(p1, mid);
    SwapSoleStep(p1, mid, after);
    var p2 := Candidate(p1, Swap(p1, after));
    var plans := [p0, p1, p2];
    assert RevisionChain(plans, [Swap(p0, mid), Swap(p1, after)]);
    assert "a" in IdSet(plans[0].steps) && "a" !in IdSet(plans[1].steps) && "a" in IdSet(plans[2].steps) by {
      assert before in plans[0].steps && after in plans[2].steps;
    }
  }

  lemma SoleStepPlanValid(p: PlanSnapshot, s: PlanStep)
    requires LineageOk(p) && p.steps == [s] && s.goalId == p.goalId && s.dependsOn == [] && s.state.Pending?
    requires p.status == Active
    ensures ValidSnapshot(p)
  {
    NeedsFirstAppend(DependencyGraph(p.steps), [], s.stepId);
    assert [] + [s.stepId] == [s.stepId];
    OrderImpliesAcyclic(DependencyGraph(p.steps), [s.stepId]);
  }

  // ---------- adaptive replanning ----------

  datatype ReplanSignal = ReplanSignal(
    signalId: Id, planId: Id, goalId: Id, trigger: Trigger, reason: string, affected: seq<Id>)

  function RevisionOf(p: PlanSnapshot, signal: ReplanSignal, replacements: seq<PlanStep>): PlanRevision {
    PlanRevision("adaptive-replan:" + signal.signalId, p.planId, p.revision, signal.trigger, signal.reason,
                 Ids(KeepSteps(p.steps, IdSet(p.steps) - Elems(signal.affected))), signal.affected, replacements)
  }

  function SignalError(p: PlanSnapshot, signal: ReplanSignal, replacements: seq<PlanStep>): Option<PlanError> {
    if signal.planId != p.planId then Some(SignalPlanMismatch)
    else if signal.goalId != p.goalId then Some(SignalGoalMismatch)
    else if !(Elems(signal.affected) <= IdSet(p.steps)) then Some(UnknownAffectedSteps)
    else if signal.affected == [] && replacements == [] then Some(NothingToChange)
    else None
  }

  ghost function Adapted(p: PlanSnapshot, signal: ReplanSignal, replacements: seq<PlanStep>)
    : Result<PlanSnapshot, PlanError>
  {
    var v := RevisionOf(p, signal, replacements);
    if SignalError(p, signal, replacements).Some? then Err(SignalError(p, signal, replacements).value)
    else if RevisionError(v).Some? then Err(RevisionError(v).value)
    else Revised(p, v)
  }

  lemma KeptIds(steps: seq<PlanStep>, ids: set<Id>)
    requires ids <= IdSet(steps)
    ensures Elems(Ids(KeepSteps(steps, ids))) == ids
  {
    KeepStepsMembers(steps, ids);
    ElemsOfIds(KeepSteps(steps, ids));
    forall id | id in ids ensures id in IdSet(KeepSteps(steps, ids)) {
      var s :| s in steps && s.stepId == id;
      assert s in KeepSteps(steps, ids);
    }
  }

  // The checks that guard hand-written revisions.
  const CLASSIFICATION_ERRORS := {
    PreservedAndInvalidated, EmptyRevision, RevisionNotPositive, WrongPlan, WrongRevision, UnknownSteps,
    UnclassifiedSteps
  }

  lemma AdaptivePartition(p: PlanSnapshot, signal: ReplanSignal, replacements: seq<PlanStep>)
    requires SignalError(p, signal, replacements) == None
    ensures var v := RevisionOf(p, signal, replacements);
            && Elems(v.preserved) == IdSet(p.steps) - Elems(signal.affected)
            && Elems(v.preserved) + Elems(v.invalidated) == IdSet(p.steps)
  {
    KeptIds(p.steps, IdSet(p.steps) - Elems(signal.affected));
  }

  // A signal that passes the front end builds a well-formed revision that
  // classifies every prior step exactly once, so none of the checks that guard
  // hand-written revisions can fire.
  lemma AdaptiveNeverTripsClassification(p: PlanSnapshot, signal: ReplanSignal, replacements: seq<PlanStep>)
    requires ValidSnapshot(p) && SignalError(p, signal, replacements) == None
    ensures var v := RevisionOf(p, signal, replacements);
            && RevisionError(v) == None
            && Elems(v.preserved) == IdSet(p.steps) - Elems(signal.affected)
    ensures var r := Adapted(p, signal, replacements);
            r.Err? ==> r.error !in CLASSIFICATION_ERRORS
  {
    var v := RevisionOf(p, signal, replacements);
    AdaptivePartition(p, signal, replacements);
    RevisedErrors(p, v);
  }

  lemma RevisedErrors(p: PlanSnapshot, v: PlanRevision)
    requires ValidSnapshot(p) && v.planId == p.planId && v.fromRevision == p.revision
    requires Elems(v.preserved) + Elems(v.invalidated) == IdSet(p.steps)
    ensures Revised(p, v).Err? ==> Revised(p, v).error !in CLASSIFICATION_ERRORS
  {
    SnapshotErrorKinds(Candidate(p, v));
  }

  lemma SnapshotErrorKinds(c: PlanSnapshot)
    requires c.revision > 1 && c.parentRevision == Some(c.revision - 1)
    ensures SnapshotError(c).Some? ==> SnapshotError(c).value !in CLASSIFICATION_ERRORS
  {
  }

  // The signal is about this plan, affects steps of it, and changes something.
  predicate Applies(p: PlanSnapshot, signal: ReplanSignal, replacements: seq<PlanStep>) {
    && signal.planId == p.planId && signal.goalId == p.goalId
    && (forall id :: id in signal.affected ==> exists s :: s in p.steps && s.stepId == id)
    && (signal.affected != [] || replacements != [])
  }

  lemma AppliesIff(p: PlanSnapshot, signal: ReplanSignal, replacements: seq<PlanStep>)
    ensures Applies(p, signal, replacements) <==> SignalError(p, signal, replacements) == None
  {
    assert Elems(signal.affected) <= IdSet(p.steps) <==> forall id :: id in signal.affected ==> id in IdSet(p.steps);
  }

  // What each refusal of the front end says is wrong.
  ghost predicate Unfit(p: PlanSnapshot, signal: ReplanSignal, replacements: seq<PlanStep>, e: PlanError) {
    match e
    case SignalPlanMismatch => signal.planId != p.planId
    case SignalGoalMismatch => signal.goalId != p.goalId
    case UnknownAffectedSteps => exists id :: id in signal.affected && id !in IdSet(p.steps)
    case NothingToChange => signal.affected == [] && replacements == []
    case _ => Refused(p, RevisionOf(p, signal, replacements), e)
  }

  lemma UnfitMeaning(p: PlanSnapshot, signal: ReplanSignal, replacements: seq<PlanStep>)
    requires ValidSnapshot(p)
    ensures var r := Adapted(p, signal, replacements);
            r.Err? ==> Unfit(p, signal, replacements, r.error)
  {
    if SignalError(p, signal, replacements) == None {
      AdaptiveNeverTripsClassification(p, signal, replacements);
      RefusalNamesFlaw(p, RevisionOf(p, signal, replacements));
      RevisedErrorKinds(p, RevisionOf(p, signal, replacements));
    } else if SignalError(p, signal, replacements) == Some(UnknownAffectedSteps) {
      var id :| id in Elems(signal.affected) && id !in IdSet(p.steps);
    }
  }

  lemma RevisedErrorKinds(p: PlanSnapshot, v: PlanRevision)
    ensures Revised(p, v).Err? ==>
      Revised(p, v).error !in {SignalPlanMismatch, SignalGoalMismatch, UnknownAffectedSteps, NothingToChange}
  {
  }

  ghost predicate Adaptable(p: PlanSnapshot, signal: ReplanSignal, replacements: seq<PlanStep>) {
    var v := RevisionOf(p, signal, replacements);
    && Applies(p, signal, replacements)
    && p.status in {Active, NeedsRevision}
    && Distinct(Ids(replacements)) && IdSet(replacements) * IdSet(p.steps) == {}
    && Candidate(p, v).steps != []
    && ReplacementGoals(p, v) && KeptClosed(p, v) && ReplacementsResolve(v)
    && Acyclic(DependencyGraph(replacements)) && ReplacementsComplete(p, v)
  }

  // Hence the exact acceptance condition of the front end.
  lemma AdaptiveAcceptedIff(p: PlanSnapshot, signal: ReplanSignal, replacements: seq<PlanStep>)
    requires ValidSnapshot(p)
    ensures Adapted(p, signal, replacements).Ok? <==> Adaptable(p, signal, replacements)
  {
    AppliesIff(p, signal, replacements);
    if SignalError(p, signal, replacements) == None {
      AdaptiveNeverTripsClassification(p, signal, replacements);
      AdaptivePartition(p, signal, replacements);
      RevisionAcceptedIff(p, RevisionOf(p, signal, replacements));
      ApplyErrorIff(p, RevisionOf(p, signal, replacements));
    }
  }

  lemma UnaffectedAreKept(p: PlanSnapshot, signal: ReplanSignal, replacements: seq<PlanStep>)
    requires ValidSnapshot(p) && Adapted(p, signal, replacements).Ok?
    ensures Adapted(p, signal, replacements).value.steps
         == KeepSteps(p.steps, IdSet(p.steps) - Elems(signal.affected)) + replacements
  {
    AdaptivePartition(p, signal, replacements);
  }

  // An unaffected step keeps everything, the replacements follow, and nothing
  // but a faulty signal or replacement is ever the reason for a refusal.
  method ApplyAdaptiveReplan(p: PlanSnapshot, signal: ReplanSignal, replacements: seq<PlanStep>)
    returns (r: Result<PlanSnapshot, PlanError>)
    requires ValidSnapshot(p)
    ensures r == Adapted(p, signal, replacements)
    ensures r.Ok? <==> Adaptable(p, signal, replacements)
    ensures r.Ok? ==>
      && ValidSnapshot(r.value) && r.value.planId == p.planId && r.value.goalId == p.goalId
      && r.value.revision == p.revision + 1 && r.value.parentRevision == Some(p.revision)
      && r.value.status == Active && r.value.revisionReason == Some(signal.reason)
      && r.value.steps == KeepSteps(p.steps, IdSet(p.steps) - Elems(signal.affected)) + replacements
    ensures r.Err? ==> r.error !in CLASSIFICATION_ERRORS && Unfit(p, signal, replacements, r.error)
  {
    UnfitMeaning(p, signal, replacements);
    if signal.planId != p.planId { return Err(SignalPlanMismatch); }
    if signal.goalId != p.goalId { return Err(SignalGoalMismatch); }
    if !(Elems(signal.affected) <= IdSet(p.steps)) { return Err(UnknownAffectedSteps); }
    if signal.affected == [] && replacements == [] { return Err(NothingToChange); }
    var v := RevisionOf(p, signal, replacements);
    AdaptiveNeverTripsClassification(p, signal, replacements);
    AdaptiveAcceptedIff(p, signal, replacements);
    RevisionErrorMeans(v);
    r := ApplyPlanRevision(p, v);
    if r.Ok? { UnaffectedAreKept(p, signal, replacements); }
  }
}
