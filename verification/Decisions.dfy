// The authorization policy of brain/decisions.py: a proposed decision proceeds
// only on re-derived evidence and accepted independent review.
module Decisions {
  import opened Foundation
  import E = Evidence
  import C = Collaboration

  datatype Level = Low | Medium | High | Critical
  datatype Reversibility = Reversible | CostlyToReverse | Irreversible

  datatype RiskSignal = RiskSignal(
    signalId: Id, goalId: Id, agent: Agent, sourceId: Id,
    consequence: Level, conflict: Level, reversibility: Reversibility)

  datatype RiskRequest = RiskRequest(assessmentId: Id, goalId: Id, agent: Agent, signals: seq<RiskSignal>)

  datatype Risk = Risk(
    assessmentId: Id, goalId: Id, agent: Agent,
    consequence: Level, conflict: Level, reversibility: Reversibility, sourceIds: seq<Id>)

  // The risk-bearing part of a reasoning assessment.
  datatype Reasoning = Reasoning(
    assessmentId: Id, goalId: Id, agent: Agent, consequence: Level, conflict: Level, reversibility: Reversibility)

  datatype Disposition = Proceed | Revise | Escalate | Stop

  datatype Record = Record(decisionId: Id, goalId: Id, agent: Agent, disposition: Disposition, refs: seq<Id>)

  datatype Request = Request(
    evaluationId: Id, decision: Record, reasoning: Reasoning, risk: Option<RiskRequest>,
    evidence: Option<E.EvidenceRequest>, assessment: Option<E.Assessment>, collaboration: Option<C.Collab>)

  datatype Evaluation = Evaluation(
    evaluationId: Id, decisionId: Id, goalId: Id, disposition: Disposition,
    verified: seq<Id>, unverified: seq<Id>, collaborationId: Option<Id>)

  datatype RequestError =
    | ReasoningGoal | ReasoningAgent
    | NoRiskSignals | RiskSignalGoal | RiskSignalAgent | DuplicateRiskSignal
    | RiskGoal | RiskAgent | RiskMismatch
    | EvidenceGoal | EvidenceClaim | AssessmentGoal | AssessmentClaim | ConflictingEvidence | AssessmentMismatch
    | InvalidCollaboration | CollaborationGoal | CollaborationProposal | CollaborationAuthor
    | CollaborationWithoutEvidence | CollaborationVerdict | CollaborationRefs

  // ----- Risk aggregation -----

  function LevelRank(l: Level): nat {
    match l case Low => 0 case Medium => 1 case High => 2 case Critical => 3
  }

  function ReversibilityRank(r: Reversibility): nat {
    match r case Reversible => 0 case CostlyToReverse => 1 case Irreversible => 2
  }

  function Worse(a: Level, b: Level): Level { if LevelRank(b) > LevelRank(a) then b else a }

  function HarderToReverse(a: Reversibility, b: Reversibility): Reversibility {
    if ReversibilityRank(b) > ReversibilityRank(a) then b else a
  }

  function Sources(signals: seq<RiskSignal>): (r: seq<Id>)
    ensures |r| == |signals|
  {
    seq(|signals|, i requires 0 <= i < |signals| => signals[i].sourceId)
  }

  // The request's own constructor.
  function RiskError(q: RiskRequest, signals: seq<RiskSignal>): Option<RequestError> {
    if |signals| == 0 then None
    else
      var n := |signals| - 1;
      match RiskError(q, signals[..n])
      case Some(e) => Some(e)
      case None =>
        if signals[n].goalId != q.goalId then Some(RiskSignalGoal)
        else if signals[n].agent != q.agent then Some(RiskSignalAgent)
        else if exists i :: 0 <= i < n && signals[i].signalId == signals[n].signalId then Some(DuplicateRiskSignal)
        else None
  }

  // Fold of the worst value of each field over the signals.
  function Aggregate(q: RiskRequest, signals: seq<RiskSignal>): Risk
    requires |signals| > 0
  {
    var s := signals[|signals| - 1];
    if |signals| == 1 then
      Risk(q.assessmentId, q.goalId, q.agent, s.consequence, s.conflict, s.reversibility, Dedupe(Sources(signals)))
    else
      var before := Aggregate(q, signals[..|signals| - 1]);
      before.(consequence := Worse(before.consequence, s.consequence),
              conflict := Worse(before.conflict, s.conflict),
              reversibility := HarderToReverse(before.reversibility, s.reversibility),
              sourceIds := Dedupe(Sources(signals)))
  }

  method AssessDecisionRisk(q: RiskRequest) returns (risk: Risk)
    requires |q.signals| > 0
    ensures risk == Aggregate(q, q.signals)
  {
    var first := q.signals[0];
    risk := Risk(q.assessmentId, q.goalId, q.agent, first.consequence, first.conflict, first.reversibility,
                 [first.sourceId]);
    AggregateFirst(q);
    var i := 1;
    while i < |q.signals|
      invariant 1 <= i <= |q.signals|
      invariant risk == Aggregate(q, q.signals[..i])
    {
      var s := q.signals[i];
      AggregateStep(q, i);
      risk := risk.(consequence := Worse(risk.consequence, s.consequence),
                    conflict := Worse(risk.conflict, s.conflict),
                    reversibility := HarderToReverse(risk.reversibility, s.reversibility),
                    sourceIds := if s.sourceId in risk.sourceIds then risk.sourceIds
                                 else risk.sourceIds + [s.sourceId]);
      i := i + 1;
    }
    assert q.signals[..|q.signals|] == q.signals;
  }

  lemma AggregateFirst(q: RiskRequest)
    requires |q.signals| > 0
    ensures var s := q.signals[0];
      Aggregate(q, q.signals[..1]) ==
        Risk(q.assessmentId, q.goalId, q.agent, s.consequence, s.conflict, s.reversibility, [s.sourceId])
  {
    var s := q.signals[0];
    assert q.signals[..1] == [s] && Sources([s]) == [s.sourceId];
    DedupeMeaning([s.sourceId]);
  }

  lemma AggregateStep(q: RiskRequest, i: nat)
    requires 1 <= i < |q.signals|
    ensures var s, before := q.signals[i], Aggregate(q, q.signals[..i]);
      Aggregate(q, q.signals[..i + 1]) ==
        before.(consequence := Worse(before.consequence, s.consequence),
                conflict := Worse(before.conflict, s.conflict),
                reversibility := HarderToReverse(before.reversibility, s.reversibility),
                sourceIds := if s.sourceId in before.sourceIds then before.sourceIds
                             else before.sourceIds + [s.sourceId])
  {
    var prefix := q.signals[..i + 1];
    assert prefix[..i] == q.signals[..i];
    assert Sources(prefix) == Sources(q.signals[..i]) + [q.signals[i].sourceId];
    AggregateSources(q, q.signals[..i]);
    DedupeSnoc(Sources(q.signals[..i]), q.signals[i].sourceId);
  }

  lemma AggregateSources(q: RiskRequest, signals: seq<RiskSignal>)
    requires |signals| > 0
    ensures Aggregate(q, signals).sourceIds == Dedupe(Sources(signals))
  {
  }

  // LOW is least, then MEDIUM, HIGH and CRITICAL; a reversible decision comes
  // before one that is costly to reverse, and both before an irreversible one.
  predicate AtMost(a: Level, b: Level) { a == b || a.Low? || b.Critical? || (a.Medium? && b.High?) }

  predicate NoHarder(a: Reversibility, b: Reversibility) { a == b || a.Reversible? || b.Irreversible? }

  predicate NoBetter(a: Risk, s: RiskSignal) {
    && AtMost(s.consequence, a.consequence)
    && AtMost(s.conflict, a.conflict)
    && NoHarder(s.reversibility, a.reversibility)
  }

  // The aggregate is at least as bad as every signal in each field, ...
  lemma {:induction false} AggregateIsWorst(q: RiskRequest, signals: seq<RiskSignal>, i: nat)
    requires i < |signals|
    ensures NoBetter(Aggregate(q, signals), signals[i])
  {
    if |signals| > 1 && i < |signals| - 1 {
      AggregateIsWorst(q, signals[..|signals| - 1], i);
    }
  }

  // ... and no worse in any field than some signal; it names every source once.
  lemma {:induction false} AggregateIsAttained(q: RiskRequest, signals: seq<RiskSignal>)
    returns (i: nat, j: nat, k: nat)
    requires |signals| > 0
    ensures i < |signals| && signals[i].consequence == Aggregate(q, signals).consequence
    ensures j < |signals| && signals[j].conflict == Aggregate(q, signals).conflict
    ensures k < |signals| && signals[k].reversibility == Aggregate(q, signals).reversibility
    ensures var a := Aggregate(q, signals);
      a.assessmentId == q.assessmentId && a.goalId == q.goalId && a.agent == q.agent && Distinct(a.sourceIds)
    ensures Elems(Aggregate(q, signals).sourceIds) == Elems(Sources(signals))
  {
    var n := |signals| - 1;
    AggregateSources(q, signals);
    DedupeMeaning(Sources(signals));
    i, j, k := n, n, n;
    if n > 0 {
      var x, y, z := AggregateIsAttained(q, signals[..n]);
      var a := Aggregate(q, signals);
      i := if signals[n].consequence == a.consequence then n else x;
      j := if signals[n].conflict == a.conflict then n else y;
      k := if signals[n].reversibility == a.reversibility then n else z;
    }
  }

  // ----- Checks on a request, first failure in source order -----

  function RiskStage(r: Request): Option<RequestError> {
    match r.risk
    case None => None
    case Some(q) =>
      if |q.signals| == 0 then Some(NoRiskSignals)
      else match RiskError(q, q.signals)
        case Some(e) => Some(e)
        case None =>
          if q.goalId != r.decision.goalId then Some(RiskGoal)
          else if q.agent != r.decision.agent then Some(RiskAgent)
          else
            var a := Aggregate(q, q.signals);
            if r.reasoning != Reasoning(a.assessmentId, a.goalId, a.agent, a.consequence, a.conflict, a.reversibility)
            then Some(RiskMismatch) else None
  }

  function EvidenceStage(r: Request): Option<RequestError> {
    if r.evidence.Some? && r.evidence.value.goalId != r.decision.goalId then Some(EvidenceGoal)
    else if r.evidence.Some? && r.evidence.value.claimId != r.decision.decisionId then Some(EvidenceClaim)
    else if r.assessment.Some? && r.assessment.value.goalId != r.decision.goalId then Some(AssessmentGoal)
    else if r.assessment.Some? && r.assessment.value.claimId != r.decision.decisionId then Some(AssessmentClaim)
    else match r.evidence
      case None => None
      case Some(q) =>
        match E.Assess(q)
        case Err(_) => Some(ConflictingEvidence)
        case Ok(a) => if r.assessment.Some? && r.assessment.value != a then Some(AssessmentMismatch) else None
  }

  function CollaborationStage(r: Request): Option<RequestError> {
    match r.collaboration
    case None => None
    case Some(c) =>
      if !C.ValidCollab(c) then Some(InvalidCollaboration)
      else if c.goalId != r.decision.goalId then Some(CollaborationGoal)
      else if c.proposalId != r.decision.decisionId then Some(CollaborationProposal)
      else if c.author != r.decision.agent then Some(CollaborationAuthor)
      else match r.evidence
        case None => Some(CollaborationWithoutEvidence)
        case Some(q) =>
          match E.Assess(q)
          case Err(_) => Some(ConflictingEvidence)
          case Ok(a) =>
            if c.verdict != a.verdict then Some(CollaborationVerdict)
            else if Elems(c.refs) != Elems(a.supporting) then Some(CollaborationRefs)
            else None
  }

  function CheckRequest(r: Request): Option<RequestError> {
    if r.reasoning.goalId != r.decision.goalId then Some(ReasoningGoal)
    else if r.reasoning.agent != r.decision.agent then Some(ReasoningAgent)
    else match RiskStage(r)
      case Some(e) => Some(e)
      case None =>
        match EvidenceStage(r)
        case Some(e) => Some(e)
        case None => CollaborationStage(r)
  }

  // What each refusal says is wrong.
  predicate Wrong(r: Request, e: RequestError) {
    match e
    case ReasoningGoal => r.reasoning.goalId != r.decision.goalId
    case ReasoningAgent => r.reasoning.agent != r.decision.agent
    case NoRiskSignals => r.risk.Some? && r.risk.value.signals == []
    case RiskSignalGoal => r.risk.Some? && exists s :: s in r.risk.value.signals && s.goalId != r.risk.value.goalId
    case RiskSignalAgent => r.risk.Some? && exists s :: s in r.risk.value.signals && s.agent != r.risk.value.agent
    case DuplicateRiskSignal => r.risk.Some? && SharedSignalId(r.risk.value.signals)
    case RiskGoal => r.risk.Some? && r.risk.value.goalId != r.decision.goalId
    case RiskAgent => r.risk.Some? && r.risk.value.agent != r.decision.agent
    case RiskMismatch =>
      r.risk.Some? && var q := r.risk.value; q.signals != [] && !SameRisk(r.reasoning, Aggregate(q, q.signals))
    case EvidenceGoal => r.evidence.Some? && r.evidence.value.goalId != r.decision.goalId
    case EvidenceClaim => r.evidence.Some? && r.evidence.value.claimId != r.decision.decisionId
    case AssessmentGoal => r.assessment.Some? && r.assessment.value.goalId != r.decision.goalId
    case AssessmentClaim => r.assessment.Some? && r.assessment.value.claimId != r.decision.decisionId
    case ConflictingEvidence => r.evidence.Some? && E.Conflicting(r.evidence.value.evidence)
    case AssessmentMismatch =>
      r.assessment.Some? && r.evidence.Some? && E.Assess(r.evidence.value) != Ok(r.assessment.value)
    case InvalidCollaboration => r.collaboration.Some? && !C.ValidCollab(r.collaboration.value)
    case CollaborationGoal => r.collaboration.Some? && r.collaboration.value.goalId != r.decision.goalId
    case CollaborationProposal => r.collaboration.Some? && r.collaboration.value.proposalId != r.decision.decisionId
    case CollaborationAuthor => r.collaboration.Some? && r.collaboration.value.author != r.decision.agent
    case CollaborationWithoutEvidence => r.collaboration.Some? && r.evidence.None?
    case CollaborationVerdict =>
      r.collaboration.Some? && r.evidence.Some? && r.collaboration.value.verdict != E.VerdictOf(r.evidence.value)
    case CollaborationRefs =>
      r.collaboration.Some? && r.evidence.Some? && Elems(r.collaboration.value.refs) != SupportingSet(r)
  }

  predicate SharedSignalId(signals: seq<RiskSignal>) {
    exists i, j :: 0 <= i < j < |signals| && signals[i].signalId == signals[j].signalId
  }

  predicate SameRisk(reasoning: Reasoning, a: Risk) {
    && reasoning.assessmentId == a.assessmentId && reasoning.goalId == a.goalId && reasoning.agent == a.agent
    && reasoning.consequence == a.consequence && reasoning.conflict == a.conflict
    && reasoning.reversibility == a.reversibility
  }

  lemma {:induction false} SignalErrorMeans(q: RiskRequest, signals: seq<RiskSignal>)
    ensures RiskError(q, signals).Some? ==>
      match RiskError(q, signals).value
      case RiskSignalGoal => exists s :: s in signals && s.goalId != q.goalId
      case RiskSignalAgent => exists s :: s in signals && s.agent != q.agent
      case DuplicateRiskSignal => SharedSignalId(signals)
      case _ => false
  {
    if |signals| > 0 {
      var n := |signals| - 1;
      SignalErrorMeans(q, signals[..n]);
      assert signals[n] in signals && forall s :: s in signals[..n] ==> s in signals;
      assert SharedSignalId(signals[..n]) ==> SharedSignalId(signals);
    }
  }

  // The error names a check that the request fails.
  lemma ErrorMeans(r: Request)
    ensures CheckRequest(r).Some? ==> Wrong(r, CheckRequest(r).value)
  {
    if r.risk.Some? { SignalErrorMeans(r.risk.value, r.risk.value.signals); }
    EvidenceErrorMeans(r);
    CollaborationErrorMeans(r);
  }

  lemma EvidenceErrorMeans(r: Request)
    ensures EvidenceStage(r).Some? ==> Wrong(r, EvidenceStage(r).value)
  {
  }

  lemma CollaborationErrorMeans(r: Request)
    ensures CollaborationStage(r).Some? ==> Wrong(r, CollaborationStage(r).value)
  {
  }

  // ----- The policy -----

  // The collaboration with the decision's own raw evidence in place of
  // whatever evidence the caller supplied for the proposal.
  function Bind(c: C.Collab, q: E.EvidenceRequest): C.Collab { c.(request := Some(q)) }

  function Review(c: C.Collab, q: E.EvidenceRequest): (r: (Disposition, Option<Id>))
    ensures r.0 != Stop
  {
    if !C.ValidCollab(Bind(c, q)) then (Escalate, None)
    else match C.DispositionOf(Bind(c, q))
      case Accept => (Proceed, Some(c.assessmentId))
      case Revise => (Revise, Some(c.assessmentId))
      case _ => (Escalate, Some(c.assessmentId))
  }

  // What the evidence leaves to the review, here given with its result.
  function Gate(d: Record, a: E.Assessment, reviewed: Option<(Disposition, Option<Id>)>): (Disposition, Option<Id>) {
    if a.verdict.Refuted? then (Revise, None)
    else if a.verdict.Contested? then (Escalate, None)
    else if a.verdict.Insufficient? then (Revise, None)
    else if |a.supporting| == 0 then (Revise, None)
    else if exists i :: 0 <= i < |d.refs| && d.refs[i] !in a.supporting then (Revise, None)
    else if |d.refs| == 0 then (Revise, None)
    else match reviewed case None => (Escalate, None) case Some(r) => r
  }

  function Reviewed(c: Option<C.Collab>, q: E.EvidenceRequest): Option<(Disposition, Option<Id>)> {
    match c case None => None case Some(collab) => Some(Review(collab, q))
  }

  function Outcome(r: Request): (Disposition, Option<Id>) {
    match r.decision.disposition
    case Stop => (Escalate, None)
    case Revise => (Revise, None)
    case Escalate => (Escalate, None)
    case Proceed =>
      match r.evidence
      case None => (Revise, None)
      case Some(q) =>
        match E.Assess(q)
        case Err(_) => (Revise, None)
        case Ok(a) => Gate(r.decision, a, Reviewed(r.collaboration, q))
  }

  function SupportingSet(r: Request): set<Id> {
    match r.evidence
    case None => {}
    case Some(q) => match E.Assess(q) case Ok(a) => Elems(a.supporting) case Err(_) => {}
  }

  function Evaluate(r: Request): Result<Evaluation, RequestError> {
    match CheckRequest(r)
    case Some(e) => Err(e)
    case None =>
      var o := Outcome(r);
      Ok(Evaluation(r.evaluationId, r.decision.decisionId, r.decision.goalId, o.0,
                    Keep(r.decision.refs, SupportingSet(r)),
                    Keep(r.decision.refs, Elems(r.decision.refs) - SupportingSet(r)), o.1))
  }

  method CheckSignals(q: RiskRequest) returns (error: Option<RequestError>)
    ensures error == RiskError(q, q.signals)
  {
    var seen: set<Id> := {};
    var i := 0;
    while i < |q.signals|
      invariant 0 <= i <= |q.signals|
      invariant RiskError(q, q.signals[..i]).None?
      invariant forall id :: id in seen <==> exists k :: 0 <= k < i && q.signals[k].signalId == id
    {
      var s := q.signals[i];
      assert q.signals[..i + 1][..i] == q.signals[..i];
      RiskPrefix(q, q.signals, i + 1);
      if s.goalId != q.goalId { return Some(RiskSignalGoal); }
      if s.agent != q.agent { return Some(RiskSignalAgent); }
      if s.signalId in seen { return Some(DuplicateRiskSignal); }
      seen := seen + {s.signalId};
      i := i + 1;
    }
    assert q.signals[..|q.signals|] == q.signals;
    error := None;
  }

  method CheckRisk(r: Request) returns (error: Option<RequestError>)
    ensures error == RiskStage(r)
  {
    if r.risk.None? { return None; }
    var q := r.risk.value;
    if |q.signals| == 0 { return Some(NoRiskSignals); }
    error := CheckSignals(q);
    if error.Some? { return; }
    if q.goalId != r.decision.goalId { return Some(RiskGoal); }
    if q.agent != r.decision.agent { return Some(RiskAgent); }
    var a := AssessDecisionRisk(q);
    error := if r.reasoning == Reasoning(a.assessmentId, a.goalId, a.agent, a.consequence, a.conflict, a.reversibility)
             then None else Some(RiskMismatch);
  }

  lemma {:induction false} RiskPrefix(q: RiskRequest, signals: seq<RiskSignal>, k: nat)
    requires k <= |signals|
    ensures RiskError(q, signals[..k]).Some? ==> RiskError(q, signals) == RiskError(q, signals[..k])
  {
    if k < |signals| {
      assert signals[..|signals| - 1][..k] == signals[..k];
      RiskPrefix(q, signals[..|signals| - 1], k);
    } else {
      assert signals[..k] == signals;
    }
  }

  // What a well-formed request is. Its advisory parts agree with what the raw
  // records say: reasoning with the aggregated risk, the assessment and the
  // collaboration with the evidence.
  predicate RiskAgrees(r: Request) {
    r.risk.Some? ==>
      var q := r.risk.value;
      && |q.signals| > 0 && q.goalId == r.decision.goalId && q.agent == r.decision.agent
      && (forall i :: 0 <= i < |q.signals| ==> q.signals[i].goalId == q.goalId && q.signals[i].agent == q.agent)
      && (forall i, j :: 0 <= i < j < |q.signals| ==> q.signals[i].signalId != q.signals[j].signalId)
      && var a := Aggregate(q, q.signals);
         r.reasoning == Reasoning(a.assessmentId, a.goalId, a.agent, a.consequence, a.conflict, a.reversibility)
  }

  predicate EvidenceAgrees(r: Request) {
    && (r.evidence.Some? ==>
          && r.evidence.value.goalId == r.decision.goalId && r.evidence.value.claimId == r.decision.decisionId
          && !E.Conflicting(r.evidence.value.evidence))
    && (r.assessment.Some? ==>
          && r.assessment.value.goalId == r.decision.goalId && r.assessment.value.claimId == r.decision.decisionId
          && (r.evidence.Some? ==> E.Assess(r.evidence.value) == Ok(r.assessment.value)))
  }

  // The collaboration cites the in-scope supporting records, in any order.
  ghost predicate CollaborationAgrees(r: Request) {
    r.collaboration.Some? ==>
      var c := r.collaboration.value;
      && C.ValidCollab(c) && c.goalId == r.decision.goalId && c.proposalId == r.decision.decisionId
      && c.author == r.decision.agent && r.evidence.Some? && c.verdict == E.VerdictOf(r.evidence.value)
      && forall id :: id in c.refs <==> exists s :: s in E.Side(r.evidence.value, E.Supports) && s.evidenceId == id
  }

  ghost predicate WellFormed(r: Request) {
    && r.reasoning.goalId == r.decision.goalId && r.reasoning.agent == r.decision.agent
    && RiskAgrees(r) && EvidenceAgrees(r) && CollaborationAgrees(r)
  }

  predicate SignalsOk(q: RiskRequest, signals: seq<RiskSignal>) {
    && (forall i :: 0 <= i < |signals| ==> signals[i].goalId == q.goalId && signals[i].agent == q.agent)
    && (forall i, j :: 0 <= i < j < |signals| ==> signals[i].signalId != signals[j].signalId)
  }

  lemma {:induction false} RiskErrorIff(q: RiskRequest, signals: seq<RiskSignal>)
    ensures RiskError(q, signals).None? <==> SignalsOk(q, signals)
  {
    var n := |signals| - 1;
    if n >= 0 {
      RiskErrorIff(q, signals[..n]);
      assert signals == signals[..n] + [signals[n]];
      assert SignalsOk(q, signals) ==> SignalsOk(q, signals[..n]);
    }
  }

  lemma RefsAgree(r: Request, c: C.Collab, q: E.EvidenceRequest)
    requires E.Assess(q).Ok?
    ensures Elems(c.refs) == Elems(E.Assess(q).value.supporting) <==>
      forall id :: id in c.refs <==> exists s :: s in E.Side(q, E.Supports) && s.evidenceId == id
  {
    var supporting := E.Assess(q).value.supporting;
    forall id ensures id in supporting <==> exists s :: s in E.Side(q, E.Supports) && s.evidenceId == id {
      E.RefsMeaning(q, E.Supports, id);
    }
    assert Elems(c.refs) == Elems(supporting) <==> forall id :: id in Elems(c.refs) <==> id in Elems(supporting);
    assert forall id :: (id in c.refs <==> id in Elems(c.refs)) && (id in supporting <==> id in Elems(supporting));
  }

  lemma RiskStageIff(r: Request)
    ensures RiskStage(r).None? <==> RiskAgrees(r)
  {
    if r.risk.Some? { RiskErrorIff(r.risk.value, r.risk.value.signals); }
  }

  lemma EvidenceStageIff(r: Request)
    ensures EvidenceStage(r).None? <==> EvidenceAgrees(r)
  {
  }

  lemma CollaborationStageIff(r: Request)
    requires EvidenceStage(r).None?
    ensures CollaborationStage(r).None? <==> CollaborationAgrees(r)
  {
    if r.collaboration.Some? && r.evidence.Some? {
      RefsAgree(r, r.collaboration.value, r.evidence.value);
    }
  }

  lemma CheckRequestIff(r: Request)
    ensures CheckRequest(r).None? <==> WellFormed(r)
  {
    RiskStageIff(r);
    EvidenceStageIff(r);
    if EvidenceStage(r).None? { CollaborationStageIff(r); }
  }

  method CheckEvidence(r: Request) returns (error: Option<RequestError>, assessed: Option<E.Assessment>)
    ensures error == EvidenceStage(r)
    ensures error.None? ==> (assessed.Some? <==> r.evidence.Some?)
    ensures error.None? && assessed.Some? ==> E.Assess(r.evidence.value) == Ok(assessed.value)
  {
    assessed := None;
    if r.evidence.Some? {
      if r.evidence.value.goalId != r.decision.goalId { return Some(EvidenceGoal), None; }
      if r.evidence.value.claimId != r.decision.decisionId { return Some(EvidenceClaim), None; }
    }
    if r.assessment.Some? {
      if r.assessment.value.goalId != r.decision.goalId { return Some(AssessmentGoal), None; }
      if r.assessment.value.claimId != r.decision.decisionId { return Some(AssessmentClaim), None; }
    }
    if r.evidence.Some? {
      var a := E.AssessClaimEvidence(r.evidence.value);
      if a.Err? { return Some(ConflictingEvidence), None; }
      if r.assessment.Some? && r.assessment.value != a.value { return Some(AssessmentMismatch), None; }
      assessed := Some(a.value);
    }
    error := None;
  }

  method CheckCollaboration(r: Request, assessed: Option<E.Assessment>) returns (error: Option<RequestError>)
    requires assessed.Some? <==> r.evidence.Some?
    requires assessed.Some? ==> E.Assess(r.evidence.value) == Ok(assessed.value)
    ensures error == CollaborationStage(r)
  {
    if r.collaboration.None? { return None; }
    var c := r.collaboration.value;
    if !C.ValidCollab(c) { return Some(InvalidCollaboration); }
    if c.goalId != r.decision.goalId { return Some(CollaborationGoal); }
    if c.proposalId != r.decision.decisionId { return Some(CollaborationProposal); }
    if c.author != r.decision.agent { return Some(CollaborationAuthor); }
    if assessed.None? { return Some(CollaborationWithoutEvidence); }
    if c.verdict != assessed.value.verdict { return Some(CollaborationVerdict); }
    if Elems(c.refs) != Elems(assessed.value.supporting) { return Some(CollaborationRefs); }
    error := None;
  }

  // Accepted exactly when well-formed; otherwise the first failing check.
  method ValidateRequest(r: Request) returns (error: Option<RequestError>)
    ensures error.None? <==> WellFormed(r)
    ensures error.Some? ==> Wrong(r, error.value)
    ensures error == CheckRequest(r)
  {
    CheckRequestIff(r);
    ErrorMeans(r);
    if r.reasoning.goalId != r.decision.goalId { return Some(ReasoningGoal); }
    if r.reasoning.agent != r.decision.agent { return Some(ReasoningAgent); }
    error := CheckRisk(r);
    if error.Some? { return; }
    var assessed: Option<E.Assessment>;
    error, assessed := CheckEvidence(r);
    if error.Some? { return; }
    error := CheckCollaboration(r, assessed);
  }

  // A refusal exactly of the requests that are not well formed; otherwise the
  // answer, the reviews it rests on and the two lists are all fixed.
  method EvaluateDecision(r: Request) returns (result: Result<Evaluation, RequestError>)
    ensures result == Evaluate(r)
    ensures result.Err? <==> !WellFormed(r)
    ensures result.Ok? ==> Answers(r, result.value)
  {
    EvaluationAnswers(r);
    var error := ValidateRequest(r);
    if error.Some? { return Err(error.value); }
    var d := r.decision;
    var supporting: seq<Id> := [];
    var assessed: Option<E.Assessment> := None;
    assert Elems(supporting) == {};
    if r.evidence.Some? {
      var a := E.AssessClaimEvidence(r.evidence.value);
      supporting, assessed := a.value.supporting, Some(a.value);
    }
    var verified, unverified := Keep(d.refs, Elems(supporting)), Keep(d.refs, Elems(d.refs) - Elems(supporting));
    KeepMembers(d.refs, Elems(supporting));
    KeepMembers(d.refs, Elems(d.refs) - Elems(supporting));
    var disposition, collaborationId := Decide(r, assessed, supporting, verified, unverified);
    result := Ok(Evaluation(r.evaluationId, d.decisionId, d.goalId, disposition, verified, unverified,
                            collaborationId));
  }

  // The chain of early results.
  method Decide(r: Request, assessed: Option<E.Assessment>, supporting: seq<Id>, verified: seq<Id>, unverified: seq<Id>)
    returns (disposition: Disposition, collaborationId: Option<Id>)
    requires r.evidence.Some? <==> assessed.Some?
    requires assessed.Some? ==>
      E.Assess(r.evidence.value) == Ok(assessed.value) && supporting == assessed.value.supporting
    requires forall id :: id in unverified <==> id in r.decision.refs && id !in supporting
    requires forall id :: id in verified <==> id in r.decision.refs && id in supporting
    ensures (disposition, collaborationId) == Outcome(r)
  {
    collaborationId := None;
    var d := r.decision;
    if d.disposition == Stop { return Escalate, None; }
    if d.disposition == Revise { return Revise, None; }
    if d.disposition == Escalate { return Escalate, None; }
    if assessed.None? { return Revise, None; }
    var a := assessed.value;
    if a.verdict == E.Refuted { return Revise, None; }
    if a.verdict == E.Contested { return Escalate, None; }
    if a.verdict == E.Insufficient { return Revise, None; }
    if |supporting| == 0 { return Revise, None; }
    assert |unverified| > 0 ==> unverified[0] in unverified;
    assert forall i :: 0 <= i < |d.refs| ==> d.refs[i] in d.refs;
    if |unverified| > 0 { return Revise, None; }
    assert |d.refs| > 0 ==> d.refs[0] in verified;
    assert |verified| > 0 ==> verified[0] in d.refs;
    if |verified| == 0 { return Revise, None; }
    if r.collaboration.None? { return Escalate, None; }
    var bound := Bind(r.collaboration.value, r.evidence.value);
    if !C.ValidCollab(bound) { return Escalate, None; }
    var reviewed := C.EvaluateCollaboration(bound);
    collaborationId := Some(bound.assessmentId);
    disposition := match reviewed.disposition case Accept => Proceed case Revise => Revise case _ => Escalate;
  }

  // ----- What an answer means -----

  ghost predicate Cited(refs: seq<Id>, q: E.EvidenceRequest) {
    |refs| > 0 && forall id :: id in refs ==> E.Cites(q, E.Supports, id)
  }

  // The raw evidence backs the decision and every reference it makes.
  ghost predicate Cleared(r: Request) {
    && r.evidence.Some?
    && E.Qualifies(E.Side(r.evidence.value, E.Supports)) && !E.Qualifies(E.Side(r.evidence.value, E.Contradicts))
    && Cited(r.decision.refs, r.evidence.value)
  }

  // The collaboration can be bound to that evidence: it lists the supporting
  // records in canonical order.
  predicate Bindable(r: Request) {
    && r.collaboration.Some? && r.evidence.Some?
    && r.collaboration.value.refs == E.Refs(E.SideSignals(r.evidence.value, r.evidence.value.evidence, E.Supports))
  }

  ghost predicate MustProceed(r: Request) {
    && r.decision.disposition == Proceed && Cleared(r) && Bindable(r)
    && C.MustAccept(Bind(r.collaboration.value, r.evidence.value))
  }

  // Without evidence, without qualifying support, on a reference the evidence
  // does not back, or because the peers revise.
  ghost predicate MustRevise(r: Request) {
    || r.decision.disposition == Revise
    || (r.decision.disposition == Proceed &&
        (|| r.evidence.None?
         || !E.Qualifies(E.Side(r.evidence.value, E.Supports))
         || (!E.Qualifies(E.Side(r.evidence.value, E.Contradicts)) && !Cited(r.decision.refs, r.evidence.value))
         || (Cleared(r) && Bindable(r) && C.MustRevise(Bind(r.collaboration.value, r.evidence.value)))))
  }

  // On contested evidence, or cleared but without peers who accept or revise.
  ghost predicate MustEscalate(r: Request) {
    || r.decision.disposition == Escalate || r.decision.disposition == Stop
    || (r.decision.disposition == Proceed && r.evidence.Some? &&
        (|| (E.Qualifies(E.Side(r.evidence.value, E.Supports)) && E.Qualifies(E.Side(r.evidence.value, E.Contradicts)))
         || (Cleared(r) &&
             (Bindable(r) ==> var b := Bind(r.collaboration.value, r.evidence.value);
                              !C.MustAccept(b) && !C.MustRevise(b)))))
  }

  ghost predicate Answers(r: Request, e: Evaluation) {
    && e.evaluationId == r.evaluationId && e.decisionId == r.decision.decisionId && e.goalId == r.decision.goalId
    && (e.disposition == Proceed <==> MustProceed(r))
    && (e.disposition == Revise <==> MustRevise(r))
    && (e.disposition == Escalate <==> MustEscalate(r))
    && e.collaborationId == ReviewedBy(r)
    && (forall id :: id in e.verified <==> id in r.decision.refs && Backs(r, id))
    && (forall id :: id in e.unverified <==> id in r.decision.refs && !Backs(r, id))
    && multiset(e.verified) + multiset(e.unverified) == multiset(r.decision.refs)
    && (Distinct(r.decision.refs) ==>
          InOrderOf(r.decision.refs, e.verified) && InOrderOf(r.decision.refs, e.unverified))
  }

  // The collaboration an answer rests on, if any.
  ghost function ReviewedBy(r: Request): Option<Id> {
    if r.decision.disposition == Proceed && Cleared(r) && Bindable(r) then Some(r.collaboration.value.assessmentId)
    else None
  }

  ghost predicate Backs(r: Request, id: Id) { r.evidence.Some? && E.Cites(r.evidence.value, E.Supports, id) }

  lemma CitedIsAllCited(d: Record, q: E.EvidenceRequest)
    requires E.Assess(q).Ok?
    ensures AllCited(d, E.Assess(q).value) <==> Cited(d.refs, q)
  {
    var supporting := E.Assess(q).value.supporting;
    forall id ensures id in supporting <==> E.Cites(q, E.Supports, id) { E.AssessmentMeaning(q, id); }
    assert forall i :: 0 <= i < |d.refs| ==> d.refs[i] in d.refs;
  }

  // Every branch of the gate.
  lemma GateMeaning(d: Record, a: E.Assessment, reviewed: Option<(Disposition, Option<Id>)>)
    requires a.verdict.Supported? ==> |a.supporting| > 0
    ensures Gate(d, a, reviewed) ==
      if a.verdict.Contested? then (Escalate, None)
      else if !a.verdict.Supported? || !AllCited(d, a) then (Revise, None)
      else if reviewed.None? then (Escalate, None)
      else reviewed.value
  {
  }

  lemma BindableIff(r: Request, c: C.Collab, q: E.EvidenceRequest)
    requires CheckRequest(r).None? && r.collaboration == Some(c) && r.evidence == Some(q)
    requires E.VerdictOf(q).Supported?
    ensures C.ValidCollab(Bind(c, q)) <==> Bindable(r)
    ensures Bind(c, q).verdict.Supported?
  {
    assert EvidenceStage(r).None? && CollaborationStage(r).None?;
    BoundIsValidIff(r, c, q);
  }

  // The part of the answer that depends on the peers.
  lemma ReviewMeaning(r: Request, c: C.Collab, q: E.EvidenceRequest)
    requires CheckRequest(r).None? && r.collaboration == Some(c) && r.evidence == Some(q)
    requires E.VerdictOf(q).Supported?
    ensures !Bindable(r) ==> Review(c, q) == (Escalate, None)
    ensures Bindable(r) ==>
      && (Review(c, q).0 == Proceed <==> C.MustAccept(Bind(c, q)))
      && (Review(c, q).0 == Revise <==> C.MustRevise(Bind(c, q)))
      && Review(c, q).1 == Some(c.assessmentId)
  {
    BindableIff(r, c, q);
    C.DispositionMeaning(Bind(c, q));
  }

  lemma OutcomeMeaning(r: Request)
    requires CheckRequest(r).None?
    ensures Outcome(r).0 == Proceed <==> MustProceed(r)
    ensures Outcome(r).0 == Revise <==> MustRevise(r)
    ensures Outcome(r).0 == Escalate <==> MustEscalate(r)
    ensures Outcome(r).1 == ReviewedBy(r)
  {
    NeverStops(r);
    if r.decision.disposition == Proceed && r.evidence.Some? {
      assert EvidenceStage(r).None?;
      GatedOutcome(r, r.evidence.value);
    }
  }

  lemma GatedOutcome(r: Request, q: E.EvidenceRequest)
    requires CheckRequest(r).None? && r.decision.disposition == Proceed && r.evidence == Some(q) && E.Assess(q).Ok?
    ensures Outcome(r).0 == Proceed <==> MustProceed(r)
    ensures Outcome(r).0 == Revise <==> MustRevise(r)
    ensures Outcome(r).1 == ReviewedBy(r)
  {
    var a, reviewed := E.Assess(q).value, Reviewed(r.collaboration, q);
    E.VerdictMeaning(q);
    if a.verdict.Supported? { E.SupportedHasSources(q); }
    GateMeaning(r.decision, a, reviewed);
    CitedIsAllCited(r.decision, q);
    OutcomeIsGate(r, q);
    if a.verdict.Supported? && r.collaboration.Some? { ReviewMeaning(r, r.collaboration.value, q); }
  }

  lemma BacksIff(r: Request, id: Id)
    requires CheckRequest(r).None?
    ensures id in SupportingSet(r) <==> Backs(r, id)
  {
    if r.evidence.Some? {
      assert EvidenceStage(r).None?;
      E.AssessmentMeaning(r.evidence.value, id);
    }
  }

  lemma ListsMeaning(r: Request)
    requires CheckRequest(r).None?
    ensures var e := Evaluate(r).value;
      && (forall id :: id in e.verified <==> id in r.decision.refs && Backs(r, id))
      && (forall id :: id in e.unverified <==> id in r.decision.refs && !Backs(r, id))
      && multiset(e.verified) + multiset(e.unverified) == multiset(r.decision.refs)
      && (Distinct(r.decision.refs) ==>
            InOrderOf(r.decision.refs, e.verified) && InOrderOf(r.decision.refs, e.unverified))
  {
    var refs, supporting := r.decision.refs, SupportingSet(r);
    KeepMembers(refs, supporting);
    KeepMembers(refs, Elems(refs) - supporting);
    KeepSplits(refs, Elems(refs), supporting);
    if Distinct(refs) {
      KeepInOrder(refs, supporting);
      KeepInOrder(refs, Elems(refs) - supporting);
    }
    forall id ensures id in supporting <==> Backs(r, id) { BacksIff(r, id); }
  }

  lemma EvaluationAnswers(r: Request)
    ensures Evaluate(r).Ok? <==> WellFormed(r)
    ensures Evaluate(r).Ok? ==> Answers(r, Evaluate(r).value)
  {
    CheckRequestIff(r);
    if CheckRequest(r).None? {
      OutcomeMeaning(r);
      ListsMeaning(r);
    }
  }

  // ----- What the policy guarantees -----

  predicate Proceeds(r: Request) { Evaluate(r).Ok? && Evaluate(r).value.disposition == Proceed }

  lemma ProceedsHasReview(r: Request)
    requires Proceeds(r)
    ensures r.decision.disposition == Proceed && r.evidence.Some? && r.collaboration.Some?
    ensures E.Assess(r.evidence.value).Ok? && E.Assess(r.evidence.value).value.verdict.Supported?
    ensures |r.decision.refs| > 0
    ensures forall id :: id in r.decision.refs ==> id in E.Assess(r.evidence.value).value.supporting
    ensures C.DispositionOf(Bind(r.collaboration.value, r.evidence.value)) == C.Accept
    ensures CollaborationStage(r).None? && EvidenceStage(r).None?
  {
  }

  // The claim is supported, every cited reference names a supporting record,
  // the collaboration cites them in canonical order, and its peers agree.
  ghost predicate Authorized(r: Request) {
    && r.decision.disposition == Proceed && r.evidence.Some? && r.collaboration.Some?
    && var q, c := r.evidence.value, r.collaboration.value;
       && E.Qualifies(E.Side(q, E.Supports)) && !E.Qualifies(E.Side(q, E.Contradicts))
       && |r.decision.refs| > 0
       && (forall id :: id in r.decision.refs ==> exists s :: s in E.Side(q, E.Supports) && s.evidenceId == id)
       && c.refs == E.Refs(E.SideSignals(q, q.evidence, E.Supports))
       && C.PeersAgree(Bind(c, q))
  }

  // A decision proceeds exactly when its request is well formed and all of that holds.
  lemma ProceedsIff(r: Request)
    ensures Proceeds(r) <==> WellFormed(r) && Authorized(r)
  {
    CheckRequestIff(r);
    if CheckRequest(r).None? && r.evidence.Some? {
      assert EvidenceStage(r).None?;
      OutcomeIff(r, r.evidence.value);
    }
  }

  lemma OutcomeIff(r: Request, q: E.EvidenceRequest)
    requires r.evidence == Some(q) && EvidenceStage(r).None? && CollaborationStage(r).None?
    ensures Outcome(r).0 == Proceed <==> Authorized(r)
  {
    var a, reviewed := E.Assess(q).value, Reviewed(r.collaboration, q);
    GateIff(r.decision, a, reviewed);
    CitedIff(r.decision.refs, q);
    if E.VerdictOf(q).Supported? { E.SupportedHasSources(q); }
    if r.collaboration.Some? { ReviewIff(r, r.collaboration.value, q); }
    OutcomeIsGate(r, q);
  }

  predicate AllCited(d: Record, a: E.Assessment) {
    |d.refs| > 0 && forall i :: 0 <= i < |d.refs| ==> d.refs[i] in a.supporting
  }

  lemma GateIff(d: Record, a: E.Assessment, reviewed: Option<(Disposition, Option<Id>)>)
    ensures Gate(d, a, reviewed).0 == Proceed <==>
      && a.verdict.Supported? && |a.supporting| > 0 && AllCited(d, a)
      && reviewed.Some? && reviewed.value.0 == Proceed
    ensures (reviewed.Some? ==> reviewed.value.0 != Stop) ==> Gate(d, a, reviewed).0 != Stop
    ensures a.verdict.Supported? && |a.supporting| > 0 && AllCited(d, a) && reviewed.Some? ==>
      Gate(d, a, reviewed) == reviewed.value
  {
  }

  lemma OutcomeIsGate(r: Request, q: E.EvidenceRequest)
    requires r.evidence == Some(q) && E.Assess(q).Ok?
    ensures r.decision.disposition == Proceed ==>
      Outcome(r) == Gate(r.decision, E.Assess(q).value, Reviewed(r.collaboration, q))
    ensures r.decision.disposition != Proceed ==> Outcome(r).0 != Proceed
  {
  }

  lemma ReviewIff(r: Request, c: C.Collab, q: E.EvidenceRequest)
    requires r.collaboration == Some(c) && r.evidence == Some(q)
    requires EvidenceStage(r).None? && CollaborationStage(r).None?
    ensures E.VerdictOf(q).Supported? ==>
      (Review(c, q).0 == Proceed <==>
        c.refs == E.Refs(E.SideSignals(q, q.evidence, E.Supports)) && C.PeersAgree(Bind(c, q)))
  {
    C.AcceptIff(Bind(c, q));
    assert C.ValidCollab(Bind(c, q)) <==> C.CanonicalProposal(Bind(c, q));
  }

  lemma CitedIff(refs: seq<Id>, q: E.EvidenceRequest)
    requires E.Assess(q).Ok?
    ensures (forall i :: 0 <= i < |refs| ==> refs[i] in E.Assess(q).value.supporting) <==>
      forall id :: id in refs ==> exists s :: s in E.Side(q, E.Supports) && s.evidenceId == id
  {
    forall id ensures id in E.Assess(q).value.supporting <==>
      exists s :: s in E.Side(q, E.Supports) && s.evidenceId == id
    {
      E.RefsMeaning(q, E.Supports, id);
    }
    assert forall i :: 0 <= i < |refs| ==> refs[i] in refs;
  }

  // PROCEED needs a supported claim, every cited reference naming one of the
  // in-scope supporting records, and with quorum q at least q peers other than
  // the decision's owner whose sources are disjoint from one another's and
  // from the decision's: q + 1 agents and q + 1 sources.
  lemma ProceedIsIndependentlyBacked(r: Request)
    requires Proceeds(r)
    ensures r.decision.disposition == Proceed && r.evidence.Some? && r.collaboration.Some?
    ensures |r.decision.refs| > 0 && forall id :: id in r.decision.refs ==>
      exists s :: s in E.Side(r.evidence.value, E.Supports) && s.evidenceId == id
    ensures var c := Bind(r.collaboration.value, r.evidence.value);
      && c.author == r.decision.agent && c.proposalId == r.decision.decisionId && c.goalId == r.decision.goalId
      && C.IndependentlyBacked(c, C.Supporting(c)) && |C.Supporting(c)| >= c.quorum >= 1
      && |C.Agents(C.Supporting(c)) + {r.decision.agent}| >= c.quorum + 1
      && |C.AllSources(C.SupportTable(C.Supporting(c)), C.Supporting(c)) + C.SupportingSources(c.request)|
         >= c.quorum + 1
  {
    ProceedsHasReview(r);
    var c := Bind(r.collaboration.value, r.evidence.value);
    CitedAreSupporting(r.decision.refs, r.evidence.value);
    ReviewStage(r);
    C.AcceptedIsIndependentlyBacked(c);
    C.AcceptedCounts(c);
  }

  lemma CitedAreSupporting(refs: seq<Id>, q: E.EvidenceRequest)
    requires E.Assess(q).Ok? && forall id :: id in refs ==> id in E.Assess(q).value.supporting
    ensures forall id :: id in refs ==> exists s :: s in E.Side(q, E.Supports) && s.evidenceId == id
  {
    forall id | id in refs ensures exists s :: s in E.Side(q, E.Supports) && s.evidenceId == id {
      E.RefsMeaning(q, E.Supports, id);
    }
  }

  lemma ReviewStage(r: Request)
    requires CollaborationStage(r).None? && r.collaboration.Some?
    ensures var c := r.collaboration.value;
      && C.ValidCollab(c) && c.goalId == r.decision.goalId && c.proposalId == r.decision.decisionId
      && c.author == r.decision.agent
  {
  }

  // Two requests about the same decision, evidence and reviews, whatever the
  // caller says about risk, reasoning, the assessment or the proposal's evidence.
  predicate SameAuthority(r: Request, t: Request) {
    && r.evaluationId == t.evaluationId && r.decision == t.decision && r.evidence == t.evidence
    && (r.collaboration.Some? <==> t.collaboration.Some?)
    && (r.collaboration.Some? ==>
          t.collaboration.value == r.collaboration.value.(request := t.collaboration.value.request))
  }

  // Advisory inputs can get a request refused; they never change its outcome.
  lemma AdvisoryInputsHaveNoAuthority(r: Request, t: Request)
    requires SameAuthority(r, t) && CheckRequest(r).None? && CheckRequest(t).None?
    ensures Evaluate(r) == Evaluate(t)
  {
    SameOutcome(r, t);
    assert SupportingSet(r) == SupportingSet(t);
  }

  lemma SameOutcome(r: Request, t: Request)
    requires SameAuthority(r, t)
    ensures Outcome(r) == Outcome(t)
  {
    if r.evidence.Some? && r.collaboration.Some? {
      SameReview(r.collaboration.value, t.collaboration.value, r.evidence.value);
    }
  }

  lemma SameReview(c: C.Collab, d: C.Collab, q: E.EvidenceRequest)
    requires d == c.(request := d.request)
    ensures Review(c, q) == Review(d, q)
  {
    assert Bind(c, q) == Bind(d, q);
  }

  lemma NeverStops(r: Request)
    ensures Outcome(r).0 != Stop
  {
    if r.evidence.Some? && E.Assess(r.evidence.value).Ok? {
      GateIff(r.decision, E.Assess(r.evidence.value).value, Reviewed(r.collaboration, r.evidence.value));
      OutcomeIsGate(r, r.evidence.value);
    }
  }

  lemma ConservativeStays(r: Request)
    ensures r.decision.disposition == Revise ==> Outcome(r).0 == Revise
    ensures r.decision.disposition == Escalate || r.decision.disposition == Stop ==> Outcome(r).0 == Escalate
  {
  }

  lemma EvaluationIsOutcome(r: Request)
    requires CheckRequest(r).None?
    ensures Evaluate(r).Ok? && Evaluate(r).value.disposition == Outcome(r).0
  {
  }

  // A conservative proposal is never upgraded, and STOP is not authority to stop.
  lemma NeverUpgraded(r: Request)
    requires CheckRequest(r).None?
    ensures Proceeds(r) ==> r.decision.disposition == Proceed
    ensures r.decision.disposition == Revise ==> Evaluate(r).value.disposition == Revise
    ensures r.decision.disposition == Escalate || r.decision.disposition == Stop ==>
      Evaluate(r).value.disposition == Escalate
    ensures Evaluate(r).value.disposition != Stop
  {
    EvaluationIsOutcome(r);
    ConservativeStays(r);
    NeverStops(r);
  }

  // The request accepts the proposal's references in any order, but binding
  // the raw evidence demands the canonical one: otherwise a decision whose
  // references are all verified escalates, however many peers support it.
  lemma BindingNeedsCanonicalOrder(r: Request)
    requires CheckRequest(r).None? && r.collaboration.Some?
    requires r.evidence.Some? && E.Assess(r.evidence.value).Ok? && E.Assess(r.evidence.value).value.verdict.Supported?
    ensures C.ValidCollab(Bind(r.collaboration.value, r.evidence.value)) <==>
      r.collaboration.value.refs == E.Assess(r.evidence.value).value.supporting
    ensures r.collaboration.value.refs != E.Assess(r.evidence.value).value.supporting ==> !Proceeds(r)
    ensures r.collaboration.value.refs != E.Assess(r.evidence.value).value.supporting
            && r.decision.disposition == Proceed && AllCited(r.decision, E.Assess(r.evidence.value).value) ==>
      Evaluate(r).value.disposition == Escalate
  {
    var c, q := r.collaboration.value, r.evidence.value;
    BoundIsValidIff(r, c, q);
    if c.refs != E.Assess(q).value.supporting {
      E.SupportedHasSources(q);
      GateIff(r.decision, E.Assess(q).value, Reviewed(r.collaboration, q));
      OutcomeIsGate(r, q);
      EvaluationIsOutcome(r);
    }
  }

  lemma BoundIsValidIff(r: Request, c: C.Collab, q: E.EvidenceRequest)
    requires CheckRequest(r).None? && r.collaboration == Some(c) && r.evidence == Some(q)
    requires E.Assess(q).Ok? && E.Assess(q).value.verdict.Supported?
    ensures C.ValidCollab(Bind(c, q)) <==> c.refs == E.Assess(q).value.supporting
    ensures !C.ValidCollab(Bind(c, q)) ==> Review(c, q) == (Escalate, None)
  {
    assert EvidenceStage(r).None? && CollaborationStage(r).None?;
    assert C.CanonicalProposal(Bind(c, q)) <==> c.refs == E.Assess(q).value.supporting;
  }

  // ----- A permutation that costs the authorization -----

  // Two strong records e1 and e2 of a decision, from sources s1 and s2, and one
  // peer's record from a third source.
  datatype Example = Example(goal: Id, decision: Id, e1: Id, e2: Id, s1: Id, s2: Id, s3: Id)

  predicate Apart(x: Example) { x.e1 != x.e2 && x.s3 != x.s1 && x.s3 != x.s2 }

  function Strong(x: Example, id: Id, sourceId: Id): E.Signal {
    E.Signal(id, x.goal, x.decision, sourceId, E.Supports, E.Strong, E.Observed)
  }

  function Primary(x: Example): E.EvidenceRequest {
    E.EvidenceRequest("a", x.goal, x.decision, Cmo, [Strong(x, x.e1, x.s1), Strong(x, x.e2, x.s2)])
  }

  function PeerEvidence(x: Example): E.EvidenceRequest {
    E.EvidenceRequest("b", x.goal, x.decision, Intelligence, [Strong(x, x.e1, x.s3)])
  }

  function Peer(x: Example): C.PeerReview {
    C.PeerReview("v", x.goal, x.decision, Intelligence, E.Supported, [x.e1], Some(PeerEvidence(x)))
  }

  function CollabOf(x: Example, refs: seq<Id>): C.Collab {
    C.Collab("c", x.goal, x.decision, Cmo, E.Supported, refs, None, [Peer(x)], 1)
  }

  // The collaboration cites the records in the order given.
  function Sample(x: Example, refs: seq<Id>): Request {
    Request("n", Record(x.decision, x.goal, Cmo, Proceed, [x.e1]),
            Reasoning("r", x.goal, Cmo, Low, Low, Reversible), None,
            Some(Primary(x)), None, Some(CollabOf(x, refs)))
  }

  lemma TwoSignals(q: E.EvidenceRequest, s: E.Signal, t: E.Signal)
    requires q.evidence == [s, t] && s.evidenceId != t.evidenceId && E.InScope(q, s) && E.InScope(q, t)
    requires s.relation.Supports? && s.strength.Strong? && s.origin.Observed? && t.relation.Supports?
    ensures !E.Conflicting(q.evidence) && E.VerdictOf(q) == E.Supported
    ensures E.Refs(E.SideSignals(q, q.evidence, E.Supports)) == [s.evidenceId, t.evidenceId]
  {
    assert s in E.Side(q, E.Supports);
    assert E.Side(q, E.Contradicts) == {};
    TwoSignalRefs(q, s, t);
  }

  lemma TwoSignalRefs(q: E.EvidenceRequest, s: E.Signal, t: E.Signal)
    requires q.evidence == [s, t] && s.evidenceId != t.evidenceId && E.InScope(q, s) && E.InScope(q, t)
    requires s.relation.Supports? && t.relation.Supports?
    ensures E.Refs(E.SideSignals(q, q.evidence, E.Supports)) == [s.evidenceId, t.evidenceId]
  {
    assert q.evidence[..1] == [s] && [s][..0] == [];
    assert E.SideSignals(q, [s], E.Supports) == [s];
    assert !E.SeenId([s], t.evidenceId);
    assert E.SideSignals(q, q.evidence, E.Supports) == [s, t];
  }

  lemma OneSignal(q: E.EvidenceRequest, s: E.Signal)
    requires q.evidence == [s] && E.InScope(q, s)
    requires s.relation.Supports? && s.strength.Strong? && s.origin.Observed?
    ensures C.Rederives(q, E.Supported, [s.evidenceId])
  {
    E.OneSignalVerdict(q, s);
    E.OneSignalRefs(q, s);
  }

  lemma OnePeerAgrees(c: C.Collab, v: C.PeerReview)
    requires c.reviews == [v] && c.quorum == 1 && C.Structural(c, v) && v.verdict.Supported?
    requires C.CanonicalReview(v) && C.ReviewSources(v) * C.ProposalSources(c) == {}
    ensures C.PeersAgree(c)
  {
    assert C.Relevant(c) == {v} == C.Eligible(c);
    assert !C.CommonMode(c, v);
    assert C.Supporting(c) == {v};
  }

  lemma SourcesDiffer(c: C.Collab, v: C.PeerReview, q: E.EvidenceRequest, p: E.EvidenceRequest)
    requires c.request == Some(q) && v.request == Some(p)
    requires forall s, t :: s in q.evidence && t in p.evidence ==> s.sourceId != t.sourceId
    ensures C.ReviewSources(v) * C.ProposalSources(c) == {}
  {
  }

  lemma SampleEvidence(x: Example)
    requires Apart(x)
    ensures E.Assess(Primary(x)).Ok? && E.VerdictOf(Primary(x)) == E.Supported
    ensures E.Assess(Primary(x)).value.supporting == [x.e1, x.e2]
    ensures C.CanonicalReview(Peer(x))
  {
    TwoSignals(Primary(x), Strong(x, x.e1, x.s1), Strong(x, x.e2, x.s2));
    OneSignal(PeerEvidence(x), Strong(x, x.e1, x.s3));
  }

  lemma SampleIsAccepted(x: Example, refs: seq<Id>)
    requires Apart(x) && Elems(refs) == Elems([x.e1, x.e2])
    ensures CheckRequest(Sample(x, refs)).None?
  {
    SampleEvidence(x);
    var c := CollabOf(x, refs);
    assert C.ReviewIds(c.reviews) == ["v"];
    assert C.ValidCollab(c);
    assert EvidenceStage(Sample(x, refs)).None? && CollaborationStage(Sample(x, refs)).None?;
  }

  lemma CanonicalSampleProceeds(x: Example)
    requires Apart(x)
    ensures Proceeds(Sample(x, [x.e1, x.e2]))
  {
    var r := Sample(x, [x.e1, x.e2]);
    SampleEvidence(x);
    SamplePeerAgrees(x);
    SampleIsAccepted(x, [x.e1, x.e2]);
    CitedAreSupporting(r.decision.refs, Primary(x));
    CheckRequestIff(r);
    ProceedsIff(r);
  }

  lemma SamplePeerAgrees(x: Example)
    requires Apart(x)
    ensures C.PeersAgree(Bind(CollabOf(x, [x.e1, x.e2]), Primary(x)))
  {
    var c := Bind(CollabOf(x, [x.e1, x.e2]), Primary(x));
    SampleEvidence(x);
    SourcesDiffer(c, Peer(x), Primary(x), PeerEvidence(x));
    OnePeerAgrees(c, Peer(x));
  }

  // The request that cites the records in canonical order proceeds; the one
  // that cites them the other way round is accepted too, and escalates.
  lemma PermutedRefsEscalate(x: Example)
    requires Apart(x)
    ensures Proceeds(Sample(x, [x.e1, x.e2]))
    ensures CheckRequest(Sample(x, [x.e2, x.e1])).None?
    ensures Evaluate(Sample(x, [x.e2, x.e1])).value.disposition == Escalate
  {
    CanonicalSampleProceeds(x);
    assert Elems([x.e2, x.e1]) == Elems([x.e1, x.e2]);
    SampleIsAccepted(x, [x.e2, x.e1]);
    SampleEvidence(x);
    assert [x.e2, x.e1][0] != [x.e1, x.e2][0];
    BindingNeedsCanonicalOrder(Sample(x, [x.e2, x.e1]));
  }
}
