// Learning episodes of brain/learning.py and their consolidation into one
// memory decision (brain/learning_consolidation.py).
module Learning {
  import opened Foundation
  import E = Evidence
  import M = MemoryPolicy

  datatype ClaimKind = Factual | Causal | Procedural | Predictive
  datatype Method = Observation | Experiment | Simulation | Reflection

  datatype Episode = Episode(
    episodeId: Id, goalId: Id, agent: Agent, hypothesisId: Id, kind: ClaimKind, how: Method,
    hypothesis: string, prediction: string, evidence: E.EvidenceRequest,
    interventionId: Option<Id>, controlRef: Option<Id>)

  datatype Disposition = CandidateLesson | ReviseHypothesis | ResolveContradiction | GatherEvidence | TestCausally

  datatype Decision = Decision(disposition: Disposition, verdict: E.Verdict, refs: seq<Id>, lesson: Option<string>)

  // The episode constructor: evidence about this very hypothesis, and controls
  // only on experiments.
  predicate ValidEpisode(e: Episode) {
    && e.evidence.goalId == e.goalId && e.evidence.claimId == e.hypothesisId
    && (!e.how.Experiment? ==> e.interventionId.None? && e.controlRef.None?)
  }

  predicate Controlled(e: Episode) { e.how.Experiment? && e.interventionId.Some? && e.controlRef.Some? }

  function DecisionOn(e: Episode, a: E.Assessment): Decision {
    var refs := Dedupe(a.supporting + a.contradicting);
    match a.verdict
    case Contested => Decision(ResolveContradiction, a.verdict, refs, None)
    case Insufficient => Decision(GatherEvidence, a.verdict, refs, None)
    case Refuted => Decision(ReviseHypothesis, a.verdict, refs, None)
    case Supported =>
      if e.kind.Causal? && !Controlled(e) then Decision(TestCausally, a.verdict, refs, None)
      else Decision(CandidateLesson, a.verdict, refs, Some(e.hypothesis))
  }

  // Nothing when two records of the evidence clash on an id.
  function Analyze(e: Episode): Option<Decision> {
    match E.Assess(e.evidence) case Err(_) => None case Ok(a) => Some(DecisionOn(e, a))
  }

  // Each disposition, in the sides that qualify and the controls, with what the
  // decision carries.
  predicate Teaches(e: Episode, d: Decision) {
    var support, contradiction :=
      E.Qualifies(E.Side(e.evidence, E.Supports)), E.Qualifies(E.Side(e.evidence, E.Contradicts));
    var tested := e.how.Experiment? && e.interventionId.Some? && e.controlRef.Some?;
    && E.Says(d.verdict, support, contradiction)
    && (d.disposition == ResolveContradiction <==> support && contradiction)
    && (d.disposition == GatherEvidence <==> !support && !contradiction)
    && (d.disposition == ReviseHypothesis <==> !support && contradiction)
    && (d.disposition == TestCausally <==> support && !contradiction && e.kind.Causal? && !tested)
    && (d.disposition == CandidateLesson <==> support && !contradiction && (e.kind.Causal? ==> tested))
    && d.lesson == (if d.disposition == CandidateLesson then Some(e.hypothesis) else None)
  }

  // The cited records of either side, each once, the supporting ones first.
  ghost predicate CitesBoth(q: E.EvidenceRequest, refs: seq<Id>) {
    && Distinct(refs) && M.SupportingRefs(q) <= refs
    && forall id :: id in refs <==> E.Cites(q, E.Supports, id) || E.Cites(q, E.Contradicts, id)
  }

  lemma DecisionRefs(e: Episode, a: E.Assessment)
    requires E.Assess(e.evidence) == Ok(a)
    ensures CitesBoth(e.evidence, Dedupe(a.supporting + a.contradicting))
  {
    var all := a.supporting + a.contradicting;
    DedupeMeaning(all);
    DedupePrefix(a.supporting, a.contradicting);
    E.SideRefsDistinct(e.evidence, e.evidence.evidence, E.Supports);
    DedupeMeaning(a.supporting);
    forall id
      ensures id in Dedupe(all) <==> E.Cites(e.evidence, E.Supports, id) || E.Cites(e.evidence, E.Contradicts, id)
    {
      E.AssessmentMeaning(e.evidence, id);
      assert id in Elems(Dedupe(all)) <==> id in Elems(all);
    }
  }

  lemma DecisionMeaning(e: Episode)
    ensures Analyze(e).None? <==> E.Conflicting(e.evidence.evidence)
    ensures Analyze(e).Some? ==> Teaches(e, Analyze(e).value) && CitesBoth(e.evidence, Analyze(e).value.refs)
  {
    if E.Assess(e.evidence).Ok? {
      E.VerdictMeaning(e.evidence);
      DecisionRefs(e, E.Assess(e.evidence).value);
    }
  }

  method AnalyzeLearningEpisode(e: Episode) returns (d: Option<Decision>)
    ensures d == Analyze(e)
    ensures d.None? <==> E.Conflicting(e.evidence.evidence)
    ensures d.Some? ==> Teaches(e, d.value) && CitesBoth(e.evidence, d.value.refs)
  {
    DecisionMeaning(e);
    var assessed := E.AssessClaimEvidence(e.evidence);
    if assessed.Err? { return None; }
    var decision := DecideOn(e, assessed.value);
    d := Some(decision);
  }

  method DecideOn(e: Episode, a: E.Assessment) returns (d: Decision)
    ensures d == DecisionOn(e, a)
  {
    var refs := M.MergeRefs([], a.supporting + a.contradicting);
    assert [] + (a.supporting + a.contradicting) == a.supporting + a.contradicting;
    if a.verdict == E.Contested { return Decision(ResolveContradiction, a.verdict, refs, None); }
    if a.verdict == E.Insufficient { return Decision(GatherEvidence, a.verdict, refs, None); }
    if a.verdict == E.Refuted { return Decision(ReviseHypothesis, a.verdict, refs, None); }
    var controlledCausalTest := e.how == Experiment && e.interventionId.Some? && e.controlRef.Some?;
    if e.kind == Causal && !controlledCausalTest { return Decision(TestCausally, a.verdict, refs, None); }
    d := Decision(CandidateLesson, a.verdict, refs, Some(e.hypothesis));
  }

  // A lesson needs qualifying observed support and no qualifying observed
  // contradiction, and a causal one a controlled experiment besides.
  lemma CandidateLessonIff(e: Episode)
    ensures Analyze(e).Some? && Analyze(e).value.disposition == CandidateLesson <==>
      && !E.Conflicting(e.evidence.evidence)
      && E.Qualifies(E.Side(e.evidence, E.Supports)) && !E.Qualifies(E.Side(e.evidence, E.Contradicts))
      && (e.kind.Causal? ==> e.how.Experiment? && e.interventionId.Some? && e.controlRef.Some?)
  {
  }

  // ----- Consolidation -----

  datatype Run = Run(runId: Id, episode: Episode)

  datatype Request = Request(
    consolidationId: Id, goalId: Id, agent: Agent, origin: M.ScopeLevel, requested: M.ScopeLevel, runs: seq<Run>)

  datatype Semantics = Semantics(hypothesisId: Id, kind: ClaimKind, how: Method, hypothesis: string, prediction: string)

  datatype Consolidation = Consolidation(
    consolidationId: Id, hypothesisId: Id, runIds: seq<Id>, episodeIds: seq<Id>, refs: seq<Id>,
    candidate: M.Candidate, decision: M.Decision)

  datatype ConsolidationError =
    | NoRuns | InvalidEpisode | DuplicateRunId
    | GoalMismatch | AgentMismatch | AssessorMismatch | ConflictingEvidence | NotCandidateLesson | SemanticsDiffer
    | DuplicateEpisode | DuplicateAssessment | NoObservedEvidence | ReplayedSource
    | Memory(error: M.MemoryError)

  function RunIds(runs: seq<Run>): (r: seq<Id>)
    ensures |r| == |runs|
  {
    seq(|runs|, i requires 0 <= i < |runs| => runs[i].runId)
  }

  // The request constructor, run by run.
  function RequestError(runs: seq<Run>): Option<ConsolidationError> {
    if |runs| == 0 then None
    else
      var n := |runs| - 1;
      match RequestError(runs[..n])
      case Some(e) => Some(e)
      case None =>
        if !ValidEpisode(runs[n].episode) then Some(InvalidEpisode)
        else if runs[n].runId in RunIds(runs[..n]) then Some(DuplicateRunId)
        else None
  }

  function SemanticsOf(e: Episode): Semantics { Semantics(e.hypothesisId, e.kind, e.how, e.hypothesis, e.prediction) }

  function ObservedSources(e: Episode): set<Id> {
    set s | s in e.evidence.evidence && s.origin.Observed? :: s.sourceId
  }

  // The accumulators of the loop.
  datatype Acc = Acc(
    episodeIds: seq<Id>, assessmentIds: set<Id>, sources: set<Id>, refs: seq<Id>,
    requests: seq<E.EvidenceRequest>, semantics: Option<Semantics>, allExperimental: bool)

  const START := Acc([], {}, {}, [], [], None, true)

  // What the source checks of a run by itself. Its further check that a causal
  // run is a controlled experiment cannot fail: such a run is no candidate lesson.
  function CheckAlone(r: Request, e: Episode): Option<ConsolidationError> {
    if e.goalId != r.goalId then Some(GoalMismatch)
    else if e.agent != r.agent then Some(AgentMismatch)
    else if e.evidence.agent != r.agent then Some(AssessorMismatch)
    else match Analyze(e)
      case None => Some(ConflictingEvidence)
      case Some(d) => if d.disposition != CandidateLesson then Some(NotCandidateLesson) else None
  }

  // What it checks of a run against those before it.
  function CheckAgainst(acc: Acc, e: Episode): Option<ConsolidationError> {
    if acc.semantics.Some? && acc.semantics.value != SemanticsOf(e) then Some(SemanticsDiffer)
    else if e.episodeId in acc.episodeIds then Some(DuplicateEpisode)
    else if e.evidence.assessmentId in acc.assessmentIds then Some(DuplicateAssessment)
    else if ObservedSources(e) == {} then Some(NoObservedEvidence)
    else if acc.sources * ObservedSources(e) != {} then Some(ReplayedSource)
    else None
  }

  function CheckRun(r: Request, acc: Acc, e: Episode): Option<ConsolidationError> {
    match CheckAlone(r, e) case Some(error) => Some(error) case None => CheckAgainst(acc, e)
  }

  function ContradictingRefs(q: E.EvidenceRequest): seq<Id> {
    E.Refs(E.SideSignals(q, q.evidence, E.Contradicts))
  }

  // The references a run brings in, those of both sides.
  function RunRefs(e: Episode): seq<Id> {
    Dedupe(M.SupportingRefs(e.evidence) + ContradictingRefs(e.evidence))
  }

  function Add(acc: Acc, e: Episode): Acc {
    Acc(acc.episodeIds + [e.episodeId], acc.assessmentIds + {e.evidence.assessmentId},
        acc.sources + ObservedSources(e), Dedupe(acc.refs + RunRefs(e)), acc.requests + [e.evidence],
        if acc.semantics.None? then Some(SemanticsOf(e)) else acc.semantics, acc.allExperimental && e.how.Experiment?)
  }

  function Fold(r: Request, runs: seq<Run>): Result<Acc, ConsolidationError> {
    if |runs| == 0 then Ok(START)
    else match Fold(r, runs[..|runs| - 1])
      case Err(e) => Err(e)
      case Ok(acc) =>
        match CheckRun(r, acc, runs[|runs| - 1].episode)
        case Some(e) => Err(e)
        case None => Ok(Add(acc, runs[|runs| - 1].episode))
  }

  function CandidateOf(r: Request, acc: Acc): M.Candidate
    requires acc.semantics.Some?
  {
    M.Candidate(r.consolidationId, r.goalId, acc.semantics.value.hypothesisId, r.agent,
                if acc.allExperimental then M.Experiment else M.SuccessFailure, M.ObservedAuthority,
                r.origin, r.requested, E.Supported, acc.refs, |acc.episodeIds|, acc.requests)
  }

  function Conclude(r: Request, acc: Acc): Result<Consolidation, ConsolidationError>
    requires acc.semantics.Some?
  {
    var c := CandidateOf(r, acc);
    match M.Evaluate(c)
    case Err(e) => Err(Memory(e))
    case Ok(d) =>
      Ok(Consolidation(r.consolidationId, c.claimId, RunIds(r.runs), acc.episodeIds, acc.refs, c, d))
  }

  function Consolidate(r: Request): Result<Consolidation, ConsolidationError> {
    if |r.runs| == 0 then Err(NoRuns)
    else match RequestError(r.runs)
      case Some(e) => Err(e)
      case None =>
        match Fold(r, r.runs)
        case Err(e) => Err(e)
        case Ok(acc) => if acc.semantics.None? then Err(NoRuns) else Conclude(r, acc)
  }

  method ValidateRuns(runs: seq<Run>) returns (error: Option<ConsolidationError>)
    ensures error == RequestError(runs)
  {
    var seen: set<Id> := {};
    var i := 0;
    while i < |runs|
      invariant 0 <= i <= |runs|
      invariant RequestError(runs[..i]).None? && seen == Elems(RunIds(runs[..i]))
    {
      assert runs[..i + 1][..i] == runs[..i];
      RequestPrefix(runs, i + 1);
      if !ValidEpisode(runs[i].episode) { return Some(InvalidEpisode); }
      if runs[i].runId in seen { return Some(DuplicateRunId); }
      assert RunIds(runs[..i + 1]) == RunIds(runs[..i]) + [runs[i].runId];
      seen := seen + {runs[i].runId};
      i := i + 1;
    }
    assert runs[..|runs|] == runs;
    error := None;
  }

  lemma {:induction false} RequestPrefix(runs: seq<Run>, k: nat)
    requires k <= |runs|
    ensures RequestError(runs[..k]).Some? ==> RequestError(runs) == RequestError(runs[..k])
  {
    if k < |runs| {
      assert runs[..|runs| - 1][..k] == runs[..k];
      RequestPrefix(runs[..|runs| - 1], k);
    } else {
      assert runs[..k] == runs;
    }
  }

  lemma {:induction false} FoldPrefix(r: Request, runs: seq<Run>, k: nat)
    requires k <= |runs|
    ensures Fold(r, runs[..k]).Err? ==> Fold(r, runs) == Fold(r, runs[..k])
  {
    if k < |runs| {
      assert runs[..|runs| - 1][..k] == runs[..k];
      FoldPrefix(r, runs[..|runs| - 1], k);
    } else {
      assert runs[..k] == runs;
    }
  }

  ghost predicate Folded(r: Request, i: nat, acc: Acc)
    requires i <= |r.runs|
  {
    Fold(r, r.runs[..i]) == Ok(acc) && Distinct(acc.refs)
  }

  lemma AddKeepsDistinct(acc: Acc, e: Episode)
    ensures Distinct(Add(acc, e).refs)
  {
    DedupeMeaning(acc.refs + RunRefs(e));
  }

  lemma FoldLast(r: Request, runs: seq<Run>, acc: Acc)
    requires |runs| > 0 && Fold(r, runs[..|runs| - 1]) == Ok(acc)
    ensures var e := runs[|runs| - 1].episode;
      Fold(r, runs) == match CheckRun(r, acc, e) case Some(error) => Err(error) case None => Ok(Add(acc, e))
  {
  }

  lemma FoldStep(r: Request, i: nat, acc: Acc)
    requires i < |r.runs| && Folded(r, i, acc)
    ensures CheckRun(r, acc, r.runs[i].episode).Some? ==>
      Fold(r, r.runs) == Err(CheckRun(r, acc, r.runs[i].episode).value)
    ensures CheckRun(r, acc, r.runs[i].episode).None? ==> Folded(r, i + 1, Add(acc, r.runs[i].episode))
  {
    assert r.runs[..i + 1][..i] == r.runs[..i];
    FoldLast(r, r.runs[..i + 1], acc);
    FoldPrefix(r, r.runs, i + 1);
    AddKeepsDistinct(acc, r.runs[i].episode);
  }

  // One iteration of the loop. After runs that are pairwise independent the
  // next one is taken exactly when it passes and is independent of them all.
  method AddRun(r: Request, ghost before: seq<Run>, acc: Acc, e: Episode)
    returns (next: Result<Acc, ConsolidationError>)
    requires Pairwise(before) && acc == AccOf(before) && Distinct(acc.refs)
    ensures next.Ok? <==> Passes(r, e) && IndependentOfAll(before, e)
    ensures next == match CheckRun(r, acc, e) case Some(error) => Err(error) case None => Ok(Add(acc, e))
  {
    next := CheckAndAdd(r, acc, e);
    RunTakenIff(r, before, acc, e);
  }

  method CheckAndAdd(r: Request, acc: Acc, e: Episode) returns (next: Result<Acc, ConsolidationError>)
    requires Distinct(acc.refs)
    ensures next == match CheckRun(r, acc, e) case Some(error) => Err(error) case None => Ok(Add(acc, e))
  {
    if e.goalId != r.goalId { return Err(GoalMismatch); }
    if e.agent != r.agent { return Err(AgentMismatch); }
    if e.evidence.agent != r.agent { return Err(AssessorMismatch); }
    var d := AnalyzeLearningEpisode(e);
    if d.None? { return Err(ConflictingEvidence); }
    if d.value.disposition != CandidateLesson { return Err(NotCandidateLesson); }
    if acc.semantics.Some? && acc.semantics.value != SemanticsOf(e) { return Err(SemanticsDiffer); }
    if e.episodeId in acc.episodeIds { return Err(DuplicateEpisode); }
    if e.evidence.assessmentId in acc.assessmentIds { return Err(DuplicateAssessment); }
    var observed := ObservedSources(e);
    if observed == {} { return Err(NoObservedEvidence); }
    if acc.sources * observed != {} { return Err(ReplayedSource); }
    var refs := M.MergeRefs(acc.refs, d.value.refs);
    next := Ok(Acc(acc.episodeIds + [e.episodeId], acc.assessmentIds + {e.evidence.assessmentId},
                   acc.sources + observed, refs, acc.requests + [e.evidence],
                   if acc.semantics.None? then Some(SemanticsOf(e)) else acc.semantics,
                   acc.allExperimental && e.how == Experiment));
  }

  // What a consolidation holds, and what a refusal says is wrong.
  method ConsolidateLearning(r: Request) returns (result: Result<Consolidation, ConsolidationError>)
    ensures result == Consolidate(r)
    ensures result.Ok? ==> Consolidates(r, result.value)
    ensures result.Err? ==> Wrong(r, result.error)
  {
    ConsolidationMeaning(r);
    if |r.runs| == 0 { return Err(NoRuns); }
    var error := ValidateRuns(r.runs);
    if error.Some? { return Err(error.value); }
    var acc := START;
    var i := 0;
    assert Folded(r, 0, acc);
    while i < |r.runs|
      invariant 0 <= i <= |r.runs| && Folded(r, i, acc)
    {
      FoldStep(r, i, acc);
      FoldIff(r, r.runs[..i]);
      var next := AddRun(r, r.runs[..i], acc, r.runs[i].episode);
      if next.Err? { return Err(next.error); }
      acc := next.value;
      i := i + 1;
    }
    assert r.runs[..|r.runs|] == r.runs;
    if acc.semantics.None? { return Err(NoRuns); }
    var c := CandidateOf(r, acc);
    var decided := M.EvaluateMemoryCandidate(c);
    result := if decided.Err? then Err(Memory(decided.error))
              else Ok(Consolidation(r.consolidationId, c.claimId, RunIds(r.runs), acc.episodeIds, acc.refs, c,
                                    decided.value));
  }

  // ----- What the accumulated runs mean -----

  // A run of this goal and agent whose evidence yields a lesson from at least
  // one observed source.
  predicate Passes(r: Request, e: Episode) {
    && e.goalId == r.goalId && e.agent == r.agent && e.evidence.agent == r.agent
    && Analyze(e).Some? && Analyze(e).value.disposition == CandidateLesson
    && ObservedSources(e) != {}
  }

  // Two runs of one lesson that share no episode, assessment or observed source.
  predicate Independent(e: Episode, f: Episode) {
    && SemanticsOf(e) == SemanticsOf(f)
    && e.episodeId != f.episodeId && e.evidence.assessmentId != f.evidence.assessmentId
    && ObservedSources(e) * ObservedSources(f) == {}
  }

  predicate IndependentOfAll(runs: seq<Run>, e: Episode) {
    |runs| == 0 || (IndependentOfAll(runs[..|runs| - 1], e) && Independent(runs[|runs| - 1].episode, e))
  }

  predicate Pairwise(runs: seq<Run>) {
    |runs| == 0 || (Pairwise(runs[..|runs| - 1]) && IndependentOfAll(runs[..|runs| - 1], runs[|runs| - 1].episode))
  }

  predicate EachPasses(r: Request, runs: seq<Run>) {
    forall i {:trigger Passes(r, runs[i].episode)} :: 0 <= i < |runs| ==> Passes(r, runs[i].episode)
  }

  lemma EachPassesLast(r: Request, runs: seq<Run>)
    requires |runs| > 0
    ensures EachPasses(r, runs) <==> EachPasses(r, runs[..|runs| - 1]) && Passes(r, runs[|runs| - 1].episode)
  {
    var n := |runs| - 1;
    if EachPasses(r, runs) {
      forall i {:trigger Passes(r, runs[..n][i].episode)} | 0 <= i < n ensures Passes(r, runs[..n][i].episode) {
        assert Passes(r, runs[i].episode);
      }
    }
    if EachPasses(r, runs[..n]) && Passes(r, runs[n].episode) {
      forall i {:trigger Passes(r, runs[i].episode)} | 0 <= i < |runs| ensures Passes(r, runs[i].episode) {
        if i < n { assert Passes(r, runs[..n][i].episode); }
      }
    }
  }

  predicate AllPass(r: Request, runs: seq<Run>) { EachPasses(r, runs) && Pairwise(runs) }

  // What the accumulators hold after the given runs.
  function AccOf(runs: seq<Run>): Acc {
    if |runs| == 0 then START else Add(AccOf(runs[..|runs| - 1]), runs[|runs| - 1].episode)
  }

  lemma SourcesMeet(a: set<Id>, b: set<Id>, c: set<Id>)
    ensures (a + b) * c == {} <==> a * c == {} && b * c == {}
  {
    assert a * c <= (a + b) * c && b * c <= (a + b) * c;
    assert (a + b) * c == a * c + b * c;
  }

  // Accumulating f adds exactly the demand to be independent of f.
  lemma CheckAfterAdd(acc: Acc, f: Episode, e: Episode)
    requires acc.semantics.None? || acc.semantics == Some(SemanticsOf(f))
    ensures CheckAgainst(Add(acc, f), e).None? <==> CheckAgainst(acc, e).None? && Independent(f, e)
  {
    SourcesMeet(acc.sources, ObservedSources(f), ObservedSources(e));
    AddShape(acc, f);
  }

  lemma AddShape(acc: Acc, f: Episode)
    ensures forall id :: id in Add(acc, f).episodeIds <==> id in acc.episodeIds || id == f.episodeId
  {
  }

  lemma CheckAtStart(e: Episode)
    ensures CheckAgainst(START, e).None? <==> ObservedSources(e) != {}
  {
    assert START.sources * ObservedSources(e) == {};
  }

  lemma {:induction false} SharedSemantics(runs: seq<Run>)
    requires Pairwise(runs) && |runs| > 0
    ensures AccOf(runs).semantics == Some(SemanticsOf(runs[|runs| - 1].episode))
  {
    var n := |runs| - 1;
    if n > 0 { SharedSemantics(runs[..n]); }
  }

  lemma {:induction false} IndependentAt(runs: seq<Run>, e: Episode, i: nat)
    requires IndependentOfAll(runs, e) && i < |runs|
    ensures Independent(runs[i].episode, e)
  {
    if i < |runs| - 1 { IndependentAt(runs[..|runs| - 1], e, i); }
  }

  lemma {:induction false} PairwiseAt(runs: seq<Run>, i: nat, j: nat)
    requires Pairwise(runs) && i < j < |runs|
    ensures Independent(runs[i].episode, runs[j].episode)
  {
    var n := |runs| - 1;
    if j < n { PairwiseAt(runs[..n], i, j); } else { IndependentAt(runs[..n], runs[n].episode, i); }
  }

  lemma {:induction false} CheckAgainstIff(runs: seq<Run>, e: Episode)
    requires Pairwise(runs)
    ensures CheckAgainst(AccOf(runs), e).None? <==> ObservedSources(e) != {} && IndependentOfAll(runs, e)
  {
    var n := |runs| - 1;
    if n < 0 {
      CheckAtStart(e);
    } else {
      CheckAgainstIff(runs[..n], e);
      if n > 0 {
        SharedSemantics(runs[..n]);
        IndependentAt(runs[..n], runs[n].episode, n - 1);
      }
      CheckAfterAdd(AccOf(runs[..n]), runs[n].episode, e);
    }
  }

  lemma RunTakenIff(r: Request, before: seq<Run>, acc: Acc, e: Episode)
    requires Pairwise(before) && acc == AccOf(before)
    ensures CheckRun(r, acc, e).None? <==> Passes(r, e) && IndependentOfAll(before, e)
  {
    CheckAgainstIff(before, e);
  }

  // The fold succeeds exactly when every run passes and is independent of all
  // the runs before it.
  lemma {:induction false} FoldIff(r: Request, runs: seq<Run>)
    ensures Fold(r, runs).Ok? <==> AllPass(r, runs)
    ensures Fold(r, runs).Ok? ==> Fold(r, runs) == Ok(AccOf(runs))
  {
    if |runs| > 0 {
      var n := |runs| - 1;
      FoldIff(r, runs[..n]);
      EachPassesLast(r, runs);
      if AllPass(r, runs[..n]) { RunTakenIff(r, runs[..n], AccOf(runs[..n]), runs[n].episode); }
    }
  }

  function EvidenceOf(runs: seq<Run>): (es: seq<E.EvidenceRequest>)
    ensures |es| == |runs|
  {
    seq(|runs|, i requires 0 <= i < |runs| => runs[i].episode.evidence)
  }

  lemma EvidenceSnoc(runs: seq<Run>)
    requires |runs| > 0
    ensures EvidenceOf(runs) == EvidenceOf(runs[..|runs| - 1]) + [runs[|runs| - 1].episode.evidence]
  {
  }

  lemma AddRequests(acc: Acc, e: Episode, next: Acc)
    requires next == Add(acc, e)
    ensures next.requests == acc.requests + [e.evidence] && |next.episodeIds| == |acc.episodeIds| + 1
  {
  }

  lemma {:induction false} AccRequestsAre(runs: seq<Run>)
    ensures AccOf(runs).requests == EvidenceOf(runs) && |AccOf(runs).episodeIds| == |runs|
  {
    if |runs| > 0 {
      var n := |runs| - 1;
      AccRequestsAre(runs[..n]);
      AddRequests(AccOf(runs[..n]), runs[n].episode, AccOf(runs));
      EvidenceSnoc(runs);
    }
  }

  // ----- The references -----

  function Supporting(e: Episode): set<Id> { Elems(M.SupportingRefs(e.evidence)) }

  function Contradicting(e: Episode): set<Id> { Elems(ContradictingRefs(e.evidence)) }

  function AllSupporting(runs: seq<Run>): set<Id> {
    if |runs| == 0 then {} else AllSupporting(runs[..|runs| - 1]) + Supporting(runs[|runs| - 1].episode)
  }

  function AllContradicting(runs: seq<Run>): set<Id> {
    if |runs| == 0 then {} else AllContradicting(runs[..|runs| - 1]) + Contradicting(runs[|runs| - 1].episode)
  }

  lemma RunRefsAre(e: Episode)
    ensures Elems(RunRefs(e)) == Supporting(e) + Contradicting(e)
  {
    DedupeMeaning(M.SupportingRefs(e.evidence) + ContradictingRefs(e.evidence));
    ElemsAppend(M.SupportingRefs(e.evidence), ContradictingRefs(e.evidence));
  }

  lemma {:induction false} AccRefs(runs: seq<Run>)
    ensures Elems(AccOf(runs).refs) == AllSupporting(runs) + AllContradicting(runs)
  {
    if |runs| > 0 {
      var n := |runs| - 1;
      AccRefs(runs[..n]);
      MergedRefs(AccOf(runs[..n]).refs, runs[n].episode);
    }
  }

  lemma MergedRefs(refs: seq<Id>, e: Episode)
    ensures Elems(Dedupe(refs + RunRefs(e))) == Elems(refs) + Supporting(e) + Contradicting(e)
  {
    RunRefsAre(e);
    DedupeMeaning(refs + RunRefs(e));
    ElemsAppend(refs, RunRefs(e));
  }

  lemma {:induction false} EvidenceSupports(runs: seq<Run>)
    ensures M.AllSupporting(EvidenceOf(runs)) == AllSupporting(runs)
  {
    if |runs| > 0 {
      EvidenceSupports(runs[..|runs| - 1]);
      assert EvidenceOf(runs)[..|runs| - 1] == EvidenceOf(runs[..|runs| - 1]);
    }
  }

  // ----- The decision for n passing runs -----

  lemma PassingBacks(c: M.Candidate, r: Request, e: Episode)
    requires Passes(r, e) && ValidEpisode(e)
    requires c.goalId == r.goalId && c.claimId == e.hypothesisId && c.agent == r.agent
    ensures M.BacksRun(c, e.evidence)
  {
  }

  lemma {:induction false} RequestErrorAt(runs: seq<Run>, i: nat)
    requires RequestError(runs).None? && i < |runs|
    ensures ValidEpisode(runs[i].episode)
  {
    if i < |runs| - 1 { RequestErrorAt(runs[..|runs| - 1], i); }
  }

  lemma {:induction false} AllBackAll(c: M.Candidate, requests: seq<E.EvidenceRequest>)
    requires forall i {:trigger requests[i]} :: 0 <= i < |requests| ==> M.BacksRun(c, requests[i])
    ensures M.AllBack(c, requests)
  {
    if |requests| > 0 {
      var n := |requests| - 1;
      forall i {:trigger requests[..n][i]} | 0 <= i < n ensures M.BacksRun(c, requests[..n][i]) {
        assert requests[..n][i] == requests[i];
      }
      AllBackAll(c, requests[..n]);
    }
  }

  // The accumulators after runs that all pass and are pairwise independent.
  predicate Gathered(r: Request, acc: Acc) { |r.runs| > 0 && AllPass(r, r.runs) && acc == AccOf(r.runs) }

  // One claim for all runs: each is about the hypothesis of the accumulators.
  lemma FoldedRun(r: Request, acc: Acc, i: nat)
    requires Gathered(r, acc) && i < |r.runs|
    ensures acc.requests == EvidenceOf(r.runs) && |acc.episodeIds| == |r.runs|
    ensures acc.semantics == Some(SemanticsOf(r.runs[i].episode))
  {
    AccRequestsAre(r.runs);
    SharedSemantics(r.runs);
    if i < |r.runs| - 1 { PairwiseAt(r.runs, i, |r.runs| - 1); }
  }

  lemma RunBacks(r: Request, acc: Acc, i: nat)
    requires RequestError(r.runs).None? && Gathered(r, acc) && i < |r.runs|
    ensures acc.semantics.Some? && i < |acc.requests| && M.BacksRun(CandidateOf(r, acc), acc.requests[i])
  {
    FoldedRun(r, acc, i);
    assert Passes(r, r.runs[i].episode);
    RequestErrorAt(r.runs, i);
    PassingBacks(CandidateOf(r, acc), r, r.runs[i].episode);
  }

  lemma RequestsBack(r: Request, acc: Acc)
    requires RequestError(r.runs).None? && Gathered(r, acc)
    ensures acc.semantics.Some? && M.AllBack(CandidateOf(r, acc), acc.requests)
  {
    FoldedRun(r, acc, 0);
    forall i {:trigger acc.requests[i]} | 0 <= i < |acc.requests|
      ensures M.BacksRun(CandidateOf(r, acc), acc.requests[i])
    {
      RunBacks(r, acc, i);
    }
    AllBackAll(CandidateOf(r, acc), acc.requests);
  }

  lemma AssessmentsDiffer(r: Request, acc: Acc, i: nat, j: nat)
    requires Gathered(r, acc) && i < j < |r.runs|
    ensures j < |acc.requests| && acc.requests[i].assessmentId != acc.requests[j].assessmentId
  {
    FoldedRun(r, acc, i);
    FoldedRun(r, acc, j);
    PairwiseAt(r.runs, i, j);
  }

  lemma AssessmentsDistinct(r: Request, acc: Acc)
    requires Gathered(r, acc)
    ensures Distinct(M.Assessments(acc.requests))
  {
    FoldedRun(r, acc, 0);
    forall i, j | 0 <= i < j < |acc.requests| ensures M.Assessments(acc.requests)[i] != M.Assessments(acc.requests)[j] {
      AssessmentsDiffer(r, acc, i, j);
    }
  }

  lemma SupportIsNotEmpty(r: Request, e: Episode)
    requires Passes(r, e)
    ensures Supporting(e) != {}
  {
    E.SupportedHasSources(e.evidence);
    var refs := M.SupportingRefs(e.evidence);
    assert refs[0] in Elems(refs);
  }

  lemma {:induction false} SupportSpreads(runs: seq<Run>)
    requires |runs| > 0 && Supporting(runs[|runs| - 1].episode) != {}
    ensures AllSupporting(runs) != {}
  {
    var s :| s in Supporting(runs[|runs| - 1].episode);
    assert s in AllSupporting(runs);
  }

  // Its evidence is about its own goal and hypothesis, and only an experiment
  // names an intervention or a control.
  predicate Sound(e: Episode) {
    && e.evidence.goalId == e.goalId && e.evidence.claimId == e.hypothesisId
    && (e.interventionId.Some? || e.controlRef.Some? ==> e.how.Experiment?)
  }

  // A request whose runs are valid, pass, and are pairwise independent.
  predicate Accepted(r: Request) {
    && |r.runs| > 0 && Distinct(RunIds(r.runs)) && (forall run :: run in r.runs ==> Sound(run.episode))
    && AllPass(r, r.runs)
  }

  lemma {:induction false} RequestErrorIff(runs: seq<Run>)
    ensures RequestError(runs).None? <==>
      Distinct(RunIds(runs)) && forall run :: run in runs ==> Sound(run.episode)
  {
    if |runs| > 0 {
      var n := |runs| - 1;
      RequestErrorIff(runs[..n]);
      DistinctLast(RunIds(runs));
      assert RunIds(runs)[..n] == RunIds(runs[..n]) && runs == runs[..n] + [runs[n]];
    }
  }

  predicate Broadens(r: Request) { M.ScopeRank(r.requested) < M.ScopeRank(r.origin) }

  lemma FoldRefsFacts(r: Request, acc: Acc)
    requires Gathered(r, acc)
    ensures Elems(acc.refs) == AllSupporting(r.runs) + AllContradicting(r.runs)
    ensures M.AllSupporting(acc.requests) == AllSupporting(r.runs) != {}
    ensures |acc.refs| > 0
  {
    FoldedRun(r, acc, 0);
    AccRefs(r.runs);
    EvidenceSupports(r.runs);
    assert Passes(r, r.runs[|r.runs| - 1].episode);
    SupportIsNotEmpty(r, r.runs[|r.runs| - 1].episode);
    SupportSpreads(r.runs);
    assert |acc.refs| == 0 ==> Elems(acc.refs) == {};
  }

  // Every accepted request has exactly one of these outcomes: broadening is
  // rejected, one run leaves a candidate, two verify it, and three or more
  // promote it if and only if every retained contradicting reference is also a
  // supporting one of some run; otherwise they fail, never falling back.
  lemma ConsolidationOutcome(r: Request)
    requires Accepted(r)
    ensures var result := Consolidate(r);
      && (Broadens(r) ==> result.Ok? && result.value.decision.disposition == M.Rejected)
      && (!Broadens(r) && |r.runs| == 1 ==> result.Ok? && result.value.decision.disposition == M.CandidateOnly)
      && (!Broadens(r) && |r.runs| == 2 ==> result.Ok? && result.value.decision.disposition == M.Verified)
      && (!Broadens(r) && |r.runs| >= 3 ==>
            if AllContradicting(r.runs) <= AllSupporting(r.runs)
            then result.Ok? && result.value.decision.disposition == M.Promoted
            else result == Err(Memory(M.RefsMismatch)))
  {
    RequestErrorIff(r.runs);
    FoldIff(r, r.runs);
    var acc := Fold(r, r.runs).value;
    FoldedRun(r, acc, 0);
    FoldedOutcome(r, acc);
    assert Consolidate(r) == Conclude(r, acc);
  }

  lemma FoldedOutcome(r: Request, acc: Acc)
    requires RequestError(r.runs).None? && Gathered(r, acc) && acc.semantics.Some?
    ensures M.Disposed(CandidateOf(r, acc)) ==
      if Broadens(r) then Ok(M.Rejected)
      else if |r.runs| == 1 then Ok(M.CandidateOnly)
      else if |r.runs| == 2 then Ok(M.Verified)
      else if AllContradicting(r.runs) <= AllSupporting(r.runs) then Ok(M.Promoted)
      else Err(M.RefsMismatch)
  {
    FoldedRun(r, acc, 0);
    FoldRefsFacts(r, acc);
    if |r.runs| >= 3 { FoldedProvenance(r, acc); }
    M.InstitutionalChain(CandidateOf(r, acc), Covered(r));
  }

  function Covered(r: Request): Result<bool, M.MemoryError> {
    if AllContradicting(r.runs) <= AllSupporting(r.runs) then Ok(true) else Err(M.RefsMismatch)
  }

  lemma FoldedProvenance(r: Request, acc: Acc)
    requires RequestError(r.runs).None? && |r.runs| >= 3 && Gathered(r, acc) && acc.semantics.Some?
    ensures M.Provenance(CandidateOf(r, acc)) == Covered(r)
  {
    FoldedRun(r, acc, 0);
    FoldRefsFacts(r, acc);
    RequestsBack(r, acc);
    AssessmentsDistinct(r, acc);
    M.ProvenanceOfBacked(CandidateOf(r, acc));
    CoveredIff(AllSupporting(r.runs), AllContradicting(r.runs));
  }

  lemma CoveredIff(a: set<Id>, b: set<Id>)
    ensures b <= a <==> a + b == a
  {
    assert b <= a + b;
  }

  // ----- What a consolidation holds -----

  function EpisodeIds(runs: seq<Run>): (ids: seq<Id>)
    ensures |ids| == |runs|
  {
    seq(|runs|, i requires 0 <= i < |runs| => runs[i].episode.episodeId)
  }

  predicate AllExperiments(runs: seq<Run>) { forall run :: run in runs ==> run.episode.how.Experiment? }

  // The candidate put to the memory policy: one observed, supported claim.
  predicate Proposes(r: Request, c: M.Candidate) {
    && c.candidateId == r.consolidationId && c.goalId == r.goalId && c.agent == r.agent
    && c.origin == r.origin && c.requested == r.requested
    && (forall run :: run in r.runs ==> run.episode.hypothesisId == c.claimId)
    && c.kind == (if AllExperiments(r.runs) then M.Experiment else M.SuccessFailure)
    && c.authority == M.ObservedAuthority && c.verdict == E.Supported
    && c.runCount == |r.runs| && c.runs == EvidenceOf(r.runs)
    && Elems(c.refs) == AllSupporting(r.runs) + AllContradicting(r.runs)
  }

  predicate Consolidates(r: Request, k: Consolidation) {
    && k.consolidationId == r.consolidationId && k.hypothesisId == k.candidate.claimId
    && k.runIds == RunIds(r.runs) && k.episodeIds == EpisodeIds(r.runs) && k.refs == k.candidate.refs
    && Proposes(r, k.candidate) && M.Judges(k.candidate, k.decision)
  }

  lemma AddFields(acc: Acc, e: Episode, next: Acc)
    requires next == Add(acc, e)
    ensures next.episodeIds == acc.episodeIds + [e.episodeId]
    ensures next.assessmentIds == acc.assessmentIds + {e.evidence.assessmentId}
    ensures next.sources == acc.sources + ObservedSources(e)
    ensures next.allExperimental <==> acc.allExperimental && e.how.Experiment?
  {
  }

  lemma RunsSnoc(runs: seq<Run>)
    requires |runs| > 0
    ensures var n := |runs| - 1;
      && EpisodeIds(runs) == EpisodeIds(runs[..n]) + [runs[n].episode.episodeId]
      && (AllExperiments(runs) <==> AllExperiments(runs[..n]) && runs[n].episode.how.Experiment?)
  {
    assert runs == runs[..|runs| - 1] + [runs[|runs| - 1]];
  }

  lemma {:induction false} AccFields(runs: seq<Run>)
    ensures AccOf(runs).episodeIds == EpisodeIds(runs)
    ensures AccOf(runs).allExperimental <==> AllExperiments(runs)
  {
    if |runs| > 0 {
      var n := |runs| - 1;
      AccFields(runs[..n]);
      AddFields(AccOf(runs[..n]), runs[n].episode, AccOf(runs));
      RunsSnoc(runs);
    }
  }

  lemma CandidateProposes(r: Request, acc: Acc)
    requires Gathered(r, acc) && acc.semantics.Some?
    ensures Proposes(r, CandidateOf(r, acc))
  {
    FoldedRun(r, acc, 0);
    AccFields(r.runs);
    AccRefs(r.runs);
    forall run | run in r.runs ensures run.episode.hypothesisId == acc.semantics.value.hypothesisId {
      var i :| 0 <= i < |r.runs| && r.runs[i] == run;
      FoldedRun(r, acc, i);
    }
  }

  // Two of the runs that share what they must not.
  predicate Clash(runs: seq<Run>, e: ConsolidationError) {
    exists i, j :: 0 <= i < j < |runs| && Clashes(runs[i].episode, runs[j].episode, e)
  }

  predicate Clashes(e: Episode, f: Episode, error: ConsolidationError) {
    match error
    case SemanticsDiffer => SemanticsOf(e) != SemanticsOf(f)
    case DuplicateEpisode => e.episodeId == f.episodeId
    case DuplicateAssessment => e.evidence.assessmentId == f.evidence.assessmentId
    case ReplayedSource => ObservedSources(e) * ObservedSources(f) != {}
    case _ => false
  }

  predicate Wrong(r: Request, error: ConsolidationError) {
    match error
    case NoRuns => r.runs == []
    case InvalidEpisode => exists run :: run in r.runs && !Sound(run.episode)
    case DuplicateRunId => !Distinct(RunIds(r.runs))
    case Memory(e) =>
      && e == M.RefsMismatch && |r.runs| >= 3 && !Broadens(r)
      && !(AllContradicting(r.runs) <= AllSupporting(r.runs))
    case _ => Clash(r.runs, error) || exists run :: run in r.runs && Unfit(r, run.episode, error)
  }

  // A run that does not pass by itself.
  predicate Unfit(r: Request, e: Episode, error: ConsolidationError) {
    match error
    case GoalMismatch => e.goalId != r.goalId
    case AgentMismatch => e.agent != r.agent
    case AssessorMismatch => e.evidence.agent != r.agent
    case ConflictingEvidence => E.Conflicting(e.evidence.evidence)
    case NotCandidateLesson => Analyze(e).Some? && Analyze(e).value.disposition != CandidateLesson
    case NoObservedEvidence => ObservedSources(e) == {}
    case _ => false
  }

  lemma {:induction false} RequestErrorMeans(runs: seq<Run>)
    ensures RequestError(runs) == Some(InvalidEpisode) ==> exists run :: run in runs && !Sound(run.episode)
    ensures RequestError(runs) == Some(DuplicateRunId) ==> !Distinct(RunIds(runs))
    ensures RequestError(runs) in {None, Some(InvalidEpisode), Some(DuplicateRunId)}
  {
    if |runs| > 0 {
      var n := |runs| - 1;
      RequestErrorMeans(runs[..n]);
      assert runs == runs[..n] + [runs[n]] && RunIds(runs)[..n] == RunIds(runs[..n]);
      DistinctLast(RunIds(runs));
    }
  }

  // Whose the accumulated ids and sources are.
  lemma {:induction false} AccSomeRun(runs: seq<Run>, id: Id)
    ensures id in AccOf(runs).episodeIds ==> exists i :: 0 <= i < |runs| && runs[i].episode.episodeId == id
    ensures id in AccOf(runs).assessmentIds ==>
      exists i :: 0 <= i < |runs| && runs[i].episode.evidence.assessmentId == id
    ensures id in AccOf(runs).sources ==> exists i :: 0 <= i < |runs| && id in ObservedSources(runs[i].episode)
  {
    if |runs| > 0 {
      var n := |runs| - 1;
      AccSomeRun(runs[..n], id);
      AddFields(AccOf(runs[..n]), runs[n].episode, AccOf(runs));
      assert forall i :: 0 <= i < n ==> runs[..n][i] == runs[i];
    }
  }

  // One of them clashes with the next.
  predicate ClashesWith(before: seq<Run>, e: Episode, error: ConsolidationError) {
    exists i :: 0 <= i < |before| && Clashes(before[i].episode, e, error)
  }

  lemma SemanticsClash(before: seq<Run>, e: Episode)
    requires Pairwise(before)
    requires AccOf(before).semantics.Some? && AccOf(before).semantics.value != SemanticsOf(e)
    ensures ClashesWith(before, e, SemanticsDiffer)
  {
    SharedSemantics(before);
    assert Clashes(before[|before| - 1].episode, e, SemanticsDiffer);
  }

  lemma IdClash(before: seq<Run>, e: Episode)
    ensures e.episodeId in AccOf(before).episodeIds ==> ClashesWith(before, e, DuplicateEpisode)
    ensures e.evidence.assessmentId in AccOf(before).assessmentIds ==> ClashesWith(before, e, DuplicateAssessment)
  {
    AccSomeRun(before, e.episodeId);
    AccSomeRun(before, e.evidence.assessmentId);
  }

  lemma SourceClash(before: seq<Run>, e: Episode)
    requires AccOf(before).sources * ObservedSources(e) != {}
    ensures ClashesWith(before, e, ReplayedSource)
  {
    var s :| s in AccOf(before).sources * ObservedSources(e);
    AccSomeRun(before, s);
    var i :| 0 <= i < |before| && s in ObservedSources(before[i].episode);
    assert s in ObservedSources(before[i].episode) * ObservedSources(e);
  }

  lemma AgainstErrorMeans(r: Request, before: seq<Run>, e: Episode)
    requires Pairwise(before) && CheckAgainst(AccOf(before), e).Some?
    ensures var error := CheckAgainst(AccOf(before), e).value;
      (error == NoObservedEvidence && Unfit(r, e, error)) || ClashesWith(before, e, error)
  {
    match CheckAgainst(AccOf(before), e).value {
      case SemanticsDiffer => SemanticsClash(before, e);
      case ReplayedSource => SourceClash(before, e);
      case _ => IdClash(before, e);
    }
  }

  lemma AloneErrorMeans(r: Request, e: Episode)
    requires CheckAlone(r, e).Some?
    ensures Unfit(r, e, CheckAlone(r, e).value)
  {
  }

  ghost predicate FoldRefused(r: Request, runs: seq<Run>, error: ConsolidationError) {
    Clash(runs, error) || exists run :: run in runs && Unfit(r, run.episode, error)
  }

  lemma RefusedStays(r: Request, runs: seq<Run>, last: Run, error: ConsolidationError)
    requires FoldRefused(r, runs, error)
    ensures FoldRefused(r, runs + [last], error)
  {
    var more := runs + [last];
    if Clash(runs, error) {
      var i, j :| 0 <= i < j < |runs| && Clashes(runs[i].episode, runs[j].episode, error);
      assert Clashes(more[i].episode, more[j].episode, error);
    } else {
      var run :| run in runs && Unfit(r, run.episode, error);
      assert run in more;
    }
  }

  lemma LastRefused(r: Request, before: seq<Run>, last: Run)
    requires Pairwise(before) && CheckRun(r, AccOf(before), last.episode).Some?
    ensures FoldRefused(r, before + [last], CheckRun(r, AccOf(before), last.episode).value)
  {
    var all, error := before + [last], CheckRun(r, AccOf(before), last.episode).value;
    assert last in all && all[|before|] == last;
    if CheckAlone(r, last.episode).Some? {
      AloneErrorMeans(r, last.episode);
    } else {
      AgainstErrorMeans(r, before, last.episode);
      if ClashesWith(before, last.episode, error) {
        var i :| 0 <= i < |before| && Clashes(before[i].episode, last.episode, error);
        assert Clashes(all[i].episode, all[|before|].episode, error);
      }
    }
  }

  lemma {:induction false} FoldErrorMeans(r: Request, runs: seq<Run>)
    ensures Fold(r, runs).Err? ==> FoldRefused(r, runs, Fold(r, runs).error)
  {
    if |runs| > 0 && Fold(r, runs).Err? {
      var n := |runs| - 1;
      assert runs == runs[..n] + [runs[n]];
      if Fold(r, runs[..n]).Err? {
        FoldErrorMeans(r, runs[..n]);
        RefusedStays(r, runs[..n], runs[n], Fold(r, runs).error);
      } else {
        FoldIff(r, runs[..n]);
        LastRefused(r, runs[..n], runs[n]);
      }
    }
  }

  lemma RefusalIsWrong(r: Request, error: ConsolidationError)
    requires FoldRefused(r, r.runs, error)
    ensures Wrong(r, error)
  {
  }

  lemma ConsolidationMeaning(r: Request)
    ensures Consolidate(r).Ok? ==> Consolidates(r, Consolidate(r).value)
    ensures Consolidate(r).Err? ==> Wrong(r, Consolidate(r).error)
  {
    RequestErrorMeans(r.runs);
    RequestErrorIff(r.runs);
    if |r.runs| > 0 && RequestError(r.runs).None? {
      if Fold(r, r.runs).Err? {
        FoldErrorMeans(r, r.runs);
        RefusalIsWrong(r, Fold(r, r.runs).error);
      } else {
        FoldIff(r, r.runs);
        AcceptedMeaning(r, Fold(r, r.runs).value);
      }
    }
  }

  lemma AcceptedMeaning(r: Request, acc: Acc)
    requires Accepted(r) && RequestError(r.runs).None? && Fold(r, r.runs) == Ok(acc) && acc == AccOf(r.runs)
    ensures Consolidate(r).Ok? ==> Consolidates(r, Consolidate(r).value)
    ensures Consolidate(r).Err? ==> Wrong(r, Consolidate(r).error)
  {
    FoldedRun(r, acc, 0);
    CandidateProposes(r, acc);
    AccFields(r.runs);
    M.EvaluationMeaning(CandidateOf(r, acc));
    ConsolidationOutcome(r);
  }

  // Nothing else consolidates.
  lemma OnlyAcceptedConsolidate(r: Request)
    ensures !Accepted(r) ==> Consolidate(r).Err?
  {
    RequestErrorIff(r.runs);
    FoldIff(r, r.runs);
  }

  // Promotion through consolidation takes at least three runs whose observed
  // sources are non-empty and pairwise disjoint.
  lemma PromotionNeedsIndependentRuns(r: Request)
    requires Consolidate(r).Ok? && Consolidate(r).value.decision.disposition == M.Promoted
    ensures |r.runs| >= 3 && Accepted(r)
    ensures forall i :: 0 <= i < |r.runs| ==> Passes(r, r.runs[i].episode)
    ensures forall i, j :: 0 <= i < j < |r.runs| ==> Independent(r.runs[i].episode, r.runs[j].episode)
  {
    OnlyAcceptedConsolidate(r);
    ConsolidationOutcome(r);
    forall i | 0 <= i < |r.runs| ensures Passes(r, r.runs[i].episode) { }
    forall i, j | 0 <= i < j < |r.runs| ensures Independent(r.runs[i].episode, r.runs[j].episode) {
      PairwiseAt(r.runs, i, j);
    }
  }

  // ----- Three accepted runs that do not consolidate -----

  // A run with one strong supporting and one weak contradicting record, both
  // from the source of that name.
  function SampleRun(name: Id): Run {
    var records := [E.Signal("s", "g", "h", name, E.Supports, E.Strong, E.Observed),
                    E.Signal("c", "g", "h", name, E.Contradicts, E.Weak, E.Observed)];
    Run(name, Episode(name, "g", Cmo, "h", Factual, Observation, "hypothesis", "prediction",
                      E.EvidenceRequest(name, "g", "h", Cmo, records), None, None))
  }

  function SampleRequest(a: Id, b: Id, c: Id): Request {
    Request("n", "g", Cmo, M.Brand, M.Brand, [SampleRun(a), SampleRun(b), SampleRun(c)])
  }

  lemma SideOfTwo(q: E.EvidenceRequest, s: E.Signal, t: E.Signal, relation: E.Relation)
    requires s.evidenceId != t.evidenceId && E.InScope(q, s) && E.InScope(q, t)
    ensures E.SideSignals(q, [s, t], relation)
         == (if s.relation == relation then [s] else []) + (if t.relation == relation then [t] else [])
  {
    assert [s, t][..1] == [s] && [s][..0] == [];
    assert !E.SeenId([s], t.evidenceId);
    assert E.SideSignals(q, [s], relation) == if s.relation == relation then [s] else [];
  }

  lemma OneStrongOneWeak(q: E.EvidenceRequest, s: E.Signal, t: E.Signal)
    requires q.evidence == [s, t] && s.evidenceId != t.evidenceId && E.InScope(q, s) && E.InScope(q, t)
    requires s.relation.Supports? && s.strength.Strong? && s.origin.Observed?
    requires t.relation.Contradicts? && t.strength.Weak?
    ensures !E.Conflicting(q.evidence) && E.VerdictOf(q) == E.Supported
  {
    assert s in E.Side(q, E.Supports);
    assert E.Side(q, E.Contradicts) == {t};
  }

  lemma SampleRunSides(name: Id)
    ensures Supporting(SampleRun(name).episode) == {"s"} && Contradicting(SampleRun(name).episode) == {"c"}
  {
    var q := SampleRun(name).episode.evidence;
    var s, t := q.evidence[0], q.evidence[1];
    SideOfTwo(q, s, t, E.Supports);
    SideOfTwo(q, s, t, E.Contradicts);
    assert q.evidence == [s, t] && M.SupportingRefs(q) == ["s"] && ContradictingRefs(q) == ["c"];
  }

  lemma SampleSource(name: Id)
    ensures ObservedSources(SampleRun(name).episode) == {name}
  {
    var e := SampleRun(name).episode;
    assert e.evidence.evidence[0] in e.evidence.evidence;
  }

  lemma SampleRunPasses(r: Request, name: Id)
    requires r.goalId == "g" && r.agent == Cmo
    ensures Passes(r, SampleRun(name).episode) && ValidEpisode(SampleRun(name).episode)
  {
    var e := SampleRun(name).episode;
    OneStrongOneWeak(e.evidence, e.evidence.evidence[0], e.evidence.evidence[1]);
    SampleSource(name);
    assert name in ObservedSources(e);
  }

  lemma SamplesIndependent(a: Id, b: Id)
    requires a != b
    ensures Independent(SampleRun(a).episode, SampleRun(b).episode)
  {
    SampleSource(a);
    SampleSource(b);
    assert {a} * {b} == {};
  }

  // Valid runs that pass and are independent, whose weak contradictions are
  // retained as references: consolidation fails, and leaves no candidate.
  lemma RetainedContradictionFails(a: Id, b: Id, c: Id)
    requires a != b && a != c && b != c
    ensures Accepted(SampleRequest(a, b, c)) && !Broadens(SampleRequest(a, b, c))
    ensures Consolidate(SampleRequest(a, b, c)) == Err(Memory(M.RefsMismatch))
  {
    var r := SampleRequest(a, b, c);
    SampleIsAccepted(r, a, b, c);
    ThreeSides(SampleRun(a), SampleRun(b), SampleRun(c));
    ConsolidationOutcome(r);
  }

  lemma SampleIsAccepted(r: Request, a: Id, b: Id, c: Id)
    requires r == SampleRequest(a, b, c) && a != b && a != c && b != c
    ensures Accepted(r)
  {
    SampleRunPasses(r, a);
    SampleRunPasses(r, b);
    SampleRunPasses(r, c);
    SamplesIndependent(a, b);
    SamplesIndependent(a, c);
    SamplesIndependent(b, c);
    ThreeAreValid(SampleRun(a), SampleRun(b), SampleRun(c));
    RequestErrorIff(r.runs);
    ThreeArePairwise(SampleRun(a), SampleRun(b), SampleRun(c));
    ThreePass(r, SampleRun(a), SampleRun(b), SampleRun(c));
  }

  lemma ThreePass(r: Request, x: Run, y: Run, z: Run)
    requires Passes(r, x.episode) && Passes(r, y.episode) && Passes(r, z.episode)
    ensures EachPasses(r, [x, y, z])
  {
    assert [x, y, z][..2] == [x, y] && [x, y][..1] == [x] && [x][..0] == [];
    EachPassesLast(r, [x]);
    EachPassesLast(r, [x, y]);
    EachPassesLast(r, [x, y, z]);
  }

  lemma ThreeAreValid(x: Run, y: Run, z: Run)
    requires ValidEpisode(x.episode) && ValidEpisode(y.episode) && ValidEpisode(z.episode)
    requires x.runId != y.runId && x.runId != z.runId && y.runId != z.runId
    ensures RequestError([x, y, z]).None?
  {
    assert [x, y, z][..2] == [x, y] && [x, y][..1] == [x] && [x][..0] == [];
    assert RunIds([x, y]) == [x.runId, y.runId] && RunIds([x]) == [x.runId];
    assert RequestError([x]).None? && RequestError([x, y]).None?;
  }

  lemma ThreeArePairwise(x: Run, y: Run, z: Run)
    requires Independent(x.episode, y.episode) && Independent(x.episode, z.episode) && Independent(y.episode, z.episode)
    ensures Pairwise([x, y, z])
  {
    assert [x, y, z][..2] == [x, y] && [x, y][..1] == [x] && [x][..0] == [];
    assert IndependentOfAll([x], y.episode) && IndependentOfAll([x], z.episode) && IndependentOfAll([x, y], z.episode);
    assert Pairwise([x]) && Pairwise([x, y]);
  }

  lemma ThreeSides(x: Run, y: Run, z: Run)
    requires x == SampleRun(x.runId) && y == SampleRun(y.runId) && z == SampleRun(z.runId)
    ensures !(AllContradicting([x, y, z]) <= AllSupporting([x, y, z]))
  {
    SampleRunSides(x.runId);
    SampleRunSides(y.runId);
    SampleRunSides(z.runId);
    assert [x, y, z][..2] == [x, y] && [x, y][..1] == [x] && [x][..0] == [];
    assert "s"[0] != "c"[0];
    assert AllSupporting([x]) == {"s"} && AllSupporting([x, y]) == {"s"} && AllSupporting([x, y, z]) == {"s"};
    assert "c" in AllContradicting([x, y, z]);
  }
}
