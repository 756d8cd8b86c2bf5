// World-state snapshots of brain/world_state.py: beliefs whose status comes
// only from claim-evidence verdicts, extended one snapshot at a time.
module WorldState {
  import opened Foundation
  import E = Evidence

  datatype BeliefStatus = Established | Contested | Refuted | Unknown

  datatype Proposition = Proposition(id: Id, goalId: Id, agent: Agent, statement: string)

  datatype Revision = Revision(
    revisionId: string, snapshotId: Id, status: BeliefStatus, assessment: Option<E.Assessment>)

  datatype Belief = Belief(
    proposition: Proposition, status: BeliefStatus,
    supporting: seq<Id>, contradicting: seq<Id>, ignored: seq<Id>, revisions: seq<Revision>)

  datatype Snapshot = Snapshot(
    snapshotId: Id, goalId: Id, agent: Agent, previousSnapshotId: Option<Id>, beliefs: seq<Belief>)

  datatype Request = Request(
    snapshotId: Id, goalId: Id, agent: Agent,
    propositions: seq<Proposition>, evidenceRequests: seq<E.EvidenceRequest>, previousState: Option<Snapshot>)

  datatype WorldError =
    | NoPropositions | PropositionGoalMismatch | PropositionAgentMismatch | DuplicateProposition
    | EvidenceGoalMismatch | EvidenceAgentMismatch | UnknownClaim | DuplicateEvidenceRequest
    | InvalidPreviousState | PreviousGoalMismatch | PreviousAgentMismatch | SnapshotMustAdvance
    | PropositionDisappears | PropositionRebound
    | ConflictingEvidence | DuplicateRevisionId

  function StatusForVerdict(v: E.Verdict): BeliefStatus {
    match v
    case Supported => Established
    case Contested => Contested
    case Refuted => Refuted
    case Insufficient => Unknown
  }

  // ----- What the constructors accept -----

  predicate ValidRevision(rev: Revision) {
    rev.status == match rev.assessment case Some(a) => StatusForVerdict(a.verdict) case None => Unknown
  }

  function RevisionIds(revisions: seq<Revision>): (r: seq<string>)
    ensures |r| == |revisions|
  {
    seq(|revisions|, i requires 0 <= i < |revisions| => revisions[i].revisionId)
  }

  predicate ValidBelief(b: Belief) {
    && |b.revisions| > 0
    && Distinct(RevisionIds(b.revisions))
    && (forall i :: 0 <= i < |b.revisions| ==> ValidRevision(b.revisions[i]))
    && var last := b.revisions[|b.revisions| - 1];
       b.status == last.status
       && match last.assessment
          case Some(a) => b.supporting == a.supporting && b.contradicting == a.contradicting && b.ignored == a.ignored
          case None => b.supporting == [] && b.contradicting == [] && b.ignored == []
  }

  function BeliefIds(beliefs: seq<Belief>): (r: seq<Id>)
    ensures |r| == |beliefs|
  {
    seq(|beliefs|, i requires 0 <= i < |beliefs| => beliefs[i].proposition.id)
  }

  predicate ValidSnapshot(s: Snapshot) {
    && |s.beliefs| > 0
    && Distinct(BeliefIds(s.beliefs))
    && forall i :: 0 <= i < |s.beliefs| ==>
         ValidBelief(s.beliefs[i])
         && s.beliefs[i].proposition.goalId == s.goalId && s.beliefs[i].proposition.agent == s.agent
  }

  // The status each verdict of an assessment stands for.
  predicate Named(status: BeliefStatus, v: E.Verdict) {
    && (status == Established <==> v == E.Supported)
    && (status == Refuted <==> v == E.Refuted)
    && (status == Contested <==> v == E.Contested)
    && (status == Unknown <==> v == E.Insufficient)
  }

  // A belief as its last revision leaves it: the status of the assessment there
  // and its three lists, or UNKNOWN and nothing.
  predicate Carries(b: Belief, last: Revision) {
    && b.status == last.status
    && (last.assessment.None? ==> b.supporting == [] && b.contradicting == [] && b.ignored == [])
    && (last.assessment.Some? ==>
          var a := last.assessment.value;
          b.supporting == a.supporting && b.contradicting == a.contradicting && b.ignored == a.ignored)
  }

  predicate Consistent(b: Belief) {
    && b.revisions != [] && Carries(b, b.revisions[|b.revisions| - 1])
    && (forall i, j :: 0 <= i < j < |b.revisions| ==> b.revisions[i].revisionId != b.revisions[j].revisionId)
    && (forall rev :: rev in b.revisions && rev.assessment.None? ==> rev.status == Unknown)
    && (forall rev :: rev in b.revisions && rev.assessment.Some? ==> Named(rev.status, rev.assessment.value.verdict))
  }

  lemma ConsistentIff(b: Belief)
    ensures ValidBelief(b) <==> Consistent(b)
  {
    var ids := RevisionIds(b.revisions);
    assert forall i :: 0 <= i < |b.revisions| ==> ids[i] == b.revisions[i].revisionId && b.revisions[i] in b.revisions;
    if Consistent(b) {
      forall i | 0 <= i < |b.revisions| ensures ValidRevision(b.revisions[i]) { RevisionIff(b.revisions[i]); }
    }
    if ValidBelief(b) {
      forall rev | rev in b.revisions ensures ValidRevision(rev) { }
      forall rev | rev in b.revisions
        ensures rev.assessment.None? ==> rev.status == Unknown
        ensures rev.assessment.Some? ==> Named(rev.status, rev.assessment.value.verdict)
      {
        RevisionIff(rev);
      }
    }
  }

  lemma RevisionIff(rev: Revision)
    ensures ValidRevision(rev) <==>
      && (rev.assessment.None? ==> rev.status == Unknown)
      && (rev.assessment.Some? ==> Named(rev.status, rev.assessment.value.verdict))
  {
  }

  // The snapshot constructor accepts exactly one consistent belief or more, of
  // its own goal and agent and about different propositions.
  lemma SnapshotAcceptedIff(s: Snapshot)
    ensures ValidSnapshot(s) <==>
      && s.beliefs != []
      && (forall i, j :: 0 <= i < j < |s.beliefs| ==> s.beliefs[i].proposition.id != s.beliefs[j].proposition.id)
      && (forall b :: b in s.beliefs ==>
            Consistent(b) && b.proposition.goalId == s.goalId && b.proposition.agent == s.agent)
  {
    assert forall i :: 0 <= i < |s.beliefs| ==>
      BeliefIds(s.beliefs)[i] == s.beliefs[i].proposition.id && s.beliefs[i] in s.beliefs;
    forall b | b in s.beliefs ensures ValidBelief(b) <==> Consistent(b) { ConsistentIff(b); }
  }

  // ----- Checks on a request, first failure in source order -----

  function PropositionIds(ps: seq<Proposition>): (r: seq<Id>)
    ensures |r| == |ps|
  {
    seq(|ps|, i requires 0 <= i < |ps| => ps[i].id)
  }

  function PropositionError(r: Request, ps: seq<Proposition>): Option<WorldError> {
    if |ps| == 0 then None
    else
      var n := |ps| - 1;
      match PropositionError(r, ps[..n])
      case Some(e) => Some(e)
      case None =>
        if ps[n].goalId != r.goalId then Some(PropositionGoalMismatch)
        else if ps[n].agent != r.agent then Some(PropositionAgentMismatch)
        else if ps[n].id in PropositionIds(ps[..n]) then Some(DuplicateProposition)
        else None
  }

  function Claims(es: seq<E.EvidenceRequest>): (r: seq<Id>)
    ensures |r| == |es|
  {
    seq(|es|, i requires 0 <= i < |es| => es[i].claimId)
  }

  function EvidenceError(r: Request, es: seq<E.EvidenceRequest>): Option<WorldError> {
    if |es| == 0 then None
    else
      var n := |es| - 1;
      match EvidenceError(r, es[..n])
      case Some(e) => Some(e)
      case None =>
        if es[n].goalId != r.goalId then Some(EvidenceGoalMismatch)
        else if es[n].agent != r.agent then Some(EvidenceAgentMismatch)
        else if es[n].claimId !in PropositionIds(r.propositions) then Some(UnknownClaim)
        else if es[n].claimId in Claims(es[..n]) then Some(DuplicateEvidenceRequest)
        else None
  }

  // The dictionary of propositions by id; a later entry replaces an earlier one.
  function PropositionsById(ps: seq<Proposition>): map<Id, Proposition> {
    if |ps| == 0 then map[] else PropositionsById(ps[..|ps| - 1])[ps[|ps| - 1].id := ps[|ps| - 1]]
  }

  function ContinuityError(current: map<Id, Proposition>, bs: seq<Belief>): Option<WorldError> {
    if |bs| == 0 then None
    else
      var n := |bs| - 1;
      match ContinuityError(current, bs[..n])
      case Some(e) => Some(e)
      case None =>
        var p := bs[n].proposition;
        if p.id !in current then Some(PropositionDisappears)
        else if current[p.id] != p then Some(PropositionRebound)
        else None
  }

  function PreviousError(r: Request): Option<WorldError> {
    match r.previousState
    case None => None
    case Some(prev) =>
      if !ValidSnapshot(prev) then Some(InvalidPreviousState)
      else if prev.goalId != r.goalId then Some(PreviousGoalMismatch)
      else if prev.agent != r.agent then Some(PreviousAgentMismatch)
      else if prev.snapshotId == r.snapshotId then Some(SnapshotMustAdvance)
      else ContinuityError(PropositionsById(r.propositions), prev.beliefs)
  }

  function RequestError(r: Request): Option<WorldError> {
    if |r.propositions| == 0 then Some(NoPropositions)
    else match PropositionError(r, r.propositions)
      case Some(e) => Some(e)
      case None =>
        match EvidenceError(r, r.evidenceRequests)
        case Some(e) => Some(e)
        case None => PreviousError(r)
  }

  // ----- Building the next snapshot -----

  function BeliefsById(bs: seq<Belief>): map<Id, Belief> {
    if |bs| == 0 then map[] else BeliefsById(bs[..|bs| - 1])[bs[|bs| - 1].proposition.id := bs[|bs| - 1]]
  }

  function EvidenceByClaim(es: seq<E.EvidenceRequest>): map<Id, E.EvidenceRequest> {
    if |es| == 0 then map[] else EvidenceByClaim(es[..|es| - 1])[es[|es| - 1].claimId := es[|es| - 1]]
  }

  function PreviousBeliefs(r: Request): seq<Belief> {
    match r.previousState case Some(prev) => prev.beliefs case None => []
  }

  function RevisionId(snapshotId: Id, propositionId: Id, tag: string): string {
    snapshotId + ":" + propositionId + ":" + tag
  }

  function Unassessed(snapshotId: Id, p: Proposition): Belief {
    Belief(p, Unknown, [], [], [], [Revision(RevisionId(snapshotId, p.id, "unknown"), snapshotId, Unknown, None)])
  }

  function Reassessed(snapshotId: Id, p: Proposition, a: E.Assessment, history: seq<Revision>): Belief {
    var rev := Revision(RevisionId(snapshotId, p.id, a.assessmentId), snapshotId, StatusForVerdict(a.verdict), Some(a));
    Belief(p, rev.status, a.supporting, a.contradicting, a.ignored, history + [rev])
  }

  function History(prev: Option<Belief>): seq<Revision> {
    match prev case Some(b) => b.revisions case None => []
  }

  // The belief constructor refuses a repeated revision id.
  function Extend(snapshotId: Id, p: Proposition, history: seq<Revision>, a: E.Assessment): Result<Belief, WorldError> {
    if RevisionId(snapshotId, p.id, a.assessmentId) in RevisionIds(history) then Err(DuplicateRevisionId)
    else Ok(Reassessed(snapshotId, p, a, history))
  }

  function BeliefFor(snapshotId: Id, p: Proposition, prev: Option<Belief>, er: Option<E.EvidenceRequest>):
    Result<Belief, WorldError>
  {
    match er
    case None => Ok(match prev case Some(b) => b case None => Unassessed(snapshotId, p))
    case Some(e) =>
      match E.Assess(e)
      case Err(_) => Err(ConflictingEvidence)
      case Ok(a) => Extend(snapshotId, p, History(prev), a)
  }

  function Lookup<V>(m: map<Id, V>, id: Id): Option<V> {
    if id in m then Some(m[id]) else None
  }

  function BuildBeliefs(snapshotId: Id, previous: map<Id, Belief>, evidence: map<Id, E.EvidenceRequest>,
                        ps: seq<Proposition>): Result<seq<Belief>, WorldError>
  {
    if |ps| == 0 then Ok([])
    else
      var p := ps[|ps| - 1];
      match BuildBeliefs(snapshotId, previous, evidence, ps[..|ps| - 1])
      case Err(e) => Err(e)
      case Ok(before) =>
        match BeliefFor(snapshotId, p, Lookup(previous, p.id), Lookup(evidence, p.id))
        case Err(e) => Err(e)
        case Ok(b) => Ok(before + [b])
  }

  function Build(r: Request): Result<Snapshot, WorldError> {
    match RequestError(r)
    case Some(e) => Err(e)
    case None =>
      match BuildBeliefs(r.snapshotId, BeliefsById(PreviousBeliefs(r)), EvidenceByClaim(r.evidenceRequests),
                         r.propositions)
      case Err(e) => Err(e)
      case Ok(beliefs) =>
        Ok(Snapshot(r.snapshotId, r.goalId, r.agent,
                    match r.previousState case Some(prev) => Some(prev.snapshotId) case None => None, beliefs))
  }

  // ----- The loops of the source -----

  method CheckPropositions(r: Request) returns (error: Option<WorldError>, ids: set<Id>)
    ensures error == PropositionError(r, r.propositions)
    ensures error.None? ==> ids == Elems(PropositionIds(r.propositions))
  {
    var ps := r.propositions;
    ids := {};
    var i := 0;
    while i < |ps|
      invariant 0 <= i <= |ps|
      invariant PropositionError(r, ps[..i]).None?
      invariant ids == Elems(PropositionIds(ps[..i]))
    {
      var p := ps[i];
      assert ps[..i + 1][..i] == ps[..i];
      PropositionPrefixError(r, ps, i + 1);
      if p.goalId != r.goalId { return Some(PropositionGoalMismatch), ids; }
      if p.agent != r.agent { return Some(PropositionAgentMismatch), ids; }
      if p.id in ids { return Some(DuplicateProposition), ids; }
      assert PropositionIds(ps[..i + 1]) == PropositionIds(ps[..i]) + [p.id];
      ids := ids + {p.id};
      i := i + 1;
    }
    assert ps[..|ps|] == ps;
    error := None;
  }

  // The first failure does not depend on what follows it.
  lemma {:induction false} PropositionPrefixError(r: Request, ps: seq<Proposition>, k: nat)
    requires k <= |ps|
    ensures PropositionError(r, ps[..k]).Some? ==> PropositionError(r, ps) == PropositionError(r, ps[..k])
  {
    if k < |ps| {
      var n := |ps| - 1;
      assert ps[..n][..k] == ps[..k];
      PropositionPrefixError(r, ps[..n], k);
    } else {
      assert ps[..k] == ps;
    }
  }

  method CheckEvidence(r: Request, known: set<Id>) returns (error: Option<WorldError>)
    requires known == Elems(PropositionIds(r.propositions))
    ensures error == EvidenceError(r, r.evidenceRequests)
  {
    var es := r.evidenceRequests;
    var assessed: set<Id> := {};
    var i := 0;
    while i < |es|
      invariant 0 <= i <= |es|
      invariant EvidenceError(r, es[..i]).None?
      invariant assessed == Elems(Claims(es[..i]))
    {
      var e := es[i];
      assert es[..i + 1][..i] == es[..i];
      EvidencePrefixError(r, es, i + 1);
      if e.goalId != r.goalId { return Some(EvidenceGoalMismatch); }
      if e.agent != r.agent { return Some(EvidenceAgentMismatch); }
      if e.claimId !in known { return Some(UnknownClaim); }
      if e.claimId in assessed { return Some(DuplicateEvidenceRequest); }
      assert Claims(es[..i + 1]) == Claims(es[..i]) + [e.claimId];
      assessed := assessed + {e.claimId};
      i := i + 1;
    }
    assert es[..|es|] == es;
    error := None;
  }

  lemma {:induction false} EvidencePrefixError(r: Request, es: seq<E.EvidenceRequest>, k: nat)
    requires k <= |es|
    ensures EvidenceError(r, es[..k]).Some? ==> EvidenceError(r, es) == EvidenceError(r, es[..k])
  {
    if k < |es| {
      var n := |es| - 1;
      assert es[..n][..k] == es[..k];
      EvidencePrefixError(r, es[..n], k);
    } else {
      assert es[..k] == es;
    }
  }

  method CheckContinuity(current: map<Id, Proposition>, bs: seq<Belief>) returns (error: Option<WorldError>)
    ensures error == ContinuityError(current, bs)
  {
    var i := 0;
    while i < |bs|
      invariant 0 <= i <= |bs|
      invariant ContinuityError(current, bs[..i]).None?
    {
      var p := bs[i].proposition;
      assert bs[..i + 1][..i] == bs[..i];
      ContinuityPrefixError(current, bs, i + 1);
      if p.id !in current { return Some(PropositionDisappears); }
      if current[p.id] != p { return Some(PropositionRebound); }
      i := i + 1;
    }
    assert bs[..|bs|] == bs;
    error := None;
  }

  lemma {:induction false} ContinuityPrefixError(current: map<Id, Proposition>, bs: seq<Belief>, k: nat)
    requires k <= |bs|
    ensures ContinuityError(current, bs[..k]).Some? ==>
      ContinuityError(current, bs) == ContinuityError(current, bs[..k])
  {
    if k < |bs| {
      var n := |bs| - 1;
      assert bs[..n][..k] == bs[..k];
      ContinuityPrefixError(current, bs[..n], k);
    } else {
      assert bs[..k] == bs;
    }
  }

  method CheckRequest(r: Request) returns (error: Option<WorldError>)
    ensures error == RequestError(r)
    ensures error.None? <==> Acceptable(r)
    ensures error.Some? ==> Wrong(r, error.value)
  {
    RequestErrorIff(r);
    RequestErrorMeans(r);
    if |r.propositions| == 0 { return Some(NoPropositions); }
    var known: set<Id>;
    error, known := CheckPropositions(r);
    if error.Some? { return; }
    error := CheckEvidence(r, known);
    if error.Some? || r.previousState.None? { return; }
    var prev := r.previousState.value;
    if !ValidSnapshot(prev) { return Some(InvalidPreviousState); }
    if prev.goalId != r.goalId { return Some(PreviousGoalMismatch); }
    if prev.agent != r.agent { return Some(PreviousAgentMismatch); }
    if prev.snapshotId == r.snapshotId { return Some(SnapshotMustAdvance); }
    error := CheckContinuity(PropositionsById(r.propositions), prev.beliefs);
  }

  // Reassess, carry forward, or introduce as unknown.
  method NextBelief(snapshotId: Id, p: Proposition, prev: Option<Belief>, er: Option<E.EvidenceRequest>)
    returns (step: Result<Belief, WorldError>)
    ensures step == BeliefFor(snapshotId, p, prev, er)
  {
    if er.Some? {
      var assessed := E.AssessClaimEvidence(er.value);
      step := if assessed.Err? then Err(ConflictingEvidence) else Extend(snapshotId, p, History(prev), assessed.value);
    } else if prev.Some? {
      step := Ok(prev.value);
    } else {
      step := Ok(Unassessed(snapshotId, p));
    }
  }

  // The loop over the propositions.
  method NextBeliefs(snapshotId: Id, previous: map<Id, Belief>, evidence: map<Id, E.EvidenceRequest>,
                     ps: seq<Proposition>) returns (result: Result<seq<Belief>, WorldError>)
    ensures result == BuildBeliefs(snapshotId, previous, evidence, ps)
  {
    var beliefs: seq<Belief> := [];
    var i := 0;
    while i < |ps|
      invariant 0 <= i <= |ps|
      invariant BuildBeliefs(snapshotId, previous, evidence, ps[..i]) == Ok(beliefs)
    {
      var p := ps[i];
      assert ps[..i + 1][..i] == ps[..i];
      var step := NextBelief(snapshotId, p, Lookup(previous, p.id), Lookup(evidence, p.id));
      if step.Err? {
        BuildPrefixError(snapshotId, previous, evidence, ps, i + 1);
        return Err(step.error);
      }
      beliefs := beliefs + [step.value];
      i := i + 1;
    }
    assert ps[..|ps|] == ps;
    result := Ok(beliefs);
  }

  // Every belief of the snapshot rests on the evidence of this request, or is
  // carried forward, or is introduced as unknown.
  method BuildWorldState(r: Request) returns (result: Result<Snapshot, WorldError>)
    ensures result == Build(r)
    ensures result.Ok? ==> FitsAll(r, result.value)
    ensures result.Err? ==> Wrong(r, result.error)
  {
    BuiltFits(r);
    BuildErrorMeans(r);
    var error := CheckRequest(r);
    if error.Some? { return Err(error.value); }
    var beliefs := NextBeliefs(r.snapshotId, BeliefsById(PreviousBeliefs(r)), EvidenceByClaim(r.evidenceRequests),
                               r.propositions);
    if beliefs.Err? { return Err(beliefs.error); }
    result := Ok(Snapshot(r.snapshotId, r.goalId, r.agent,
                          match r.previousState case Some(prev) => Some(prev.snapshotId) case None => None,
                          beliefs.value));
  }

  lemma {:induction false} BuildPrefixError(snapshotId: Id, previous: map<Id, Belief>,
                                            evidence: map<Id, E.EvidenceRequest>, ps: seq<Proposition>, k: nat)
    requires k <= |ps|
    ensures BuildBeliefs(snapshotId, previous, evidence, ps[..k]).Err? ==>
      BuildBeliefs(snapshotId, previous, evidence, ps) == BuildBeliefs(snapshotId, previous, evidence, ps[..k])
  {
    if k < |ps| {
      var n := |ps| - 1;
      assert ps[..n][..k] == ps[..k];
      BuildPrefixError(snapshotId, previous, evidence, ps[..n], k);
    } else {
      assert ps[..k] == ps;
    }
  }

  // ----- What an accepted request means -----

  lemma {:induction false} PropositionErrorIff(r: Request, ps: seq<Proposition>)
    ensures PropositionError(r, ps).None? <==>
      Distinct(PropositionIds(ps)) && forall i :: 0 <= i < |ps| ==> ps[i].goalId == r.goalId && ps[i].agent == r.agent
  {
    if |ps| > 0 {
      var n := |ps| - 1;
      PropositionErrorIff(r, ps[..n]);
      var ids := PropositionIds(ps);
      assert PropositionIds(ps[..n]) == ids[..n];
      assert Distinct(ids) ==> Distinct(ids[..n]);
      assert Distinct(ids[..n]) && ids[n] !in ids[..n] ==> Distinct(ids) by {
        assert ids == ids[..n] + [ids[n]];
      }
      assert ps[n].id in ids[..n] ==> !Distinct(ids);
      assert forall i :: 0 <= i < n ==> ps[..n][i] == ps[i];
    }
  }

  lemma {:induction false} PropositionsByIdAt(ps: seq<Proposition>, id: Id)
    ensures id in PropositionsById(ps) <==> id in PropositionIds(ps)
    ensures id in PropositionsById(ps) ==> PropositionsById(ps)[id] in ps && PropositionsById(ps)[id].id == id
  {
    if |ps| > 0 {
      var n := |ps| - 1;
      PropositionsByIdAt(ps[..n], id);
      assert PropositionIds(ps)[..n] == PropositionIds(ps[..n]);
      InLast(PropositionIds(ps), id);
      InLast(ps, PropositionsById(ps)[if id in PropositionsById(ps) then id else ps[n].id]);
    }
  }

  lemma {:induction false} ContinuityErrorIff(current: map<Id, Proposition>, bs: seq<Belief>)
    ensures ContinuityError(current, bs).None? <==>
      forall i :: 0 <= i < |bs| ==> Lookup(current, bs[i].proposition.id) == Some(bs[i].proposition)
  {
    if |bs| > 0 {
      var n := |bs| - 1;
      ContinuityErrorIff(current, bs[..n]);
      assert bs == bs[..n] + [bs[n]];
      assert forall i :: 0 <= i < n ==> bs[..n][i] == bs[i];
    }
  }

  // Every earlier proposition is still there, unchanged.
  predicate Keeps(ps: seq<Proposition>, bs: seq<Belief>) {
    forall i :: 0 <= i < |bs| ==> bs[i].proposition in ps
  }

  lemma AcceptedKeepsPropositions(r: Request)
    requires RequestError(r).None? && r.previousState.Some?
    ensures ValidSnapshot(r.previousState.value) && Keeps(r.propositions, r.previousState.value.beliefs)
  {
    var current, bs := PropositionsById(r.propositions), r.previousState.value.beliefs;
    ContinuityErrorIff(current, bs);
    forall i | 0 <= i < |bs| ensures bs[i].proposition in r.propositions {
      PropositionsByIdAt(r.propositions, bs[i].proposition.id);
      assert Lookup(current, bs[i].proposition.id) == Some(bs[i].proposition);
    }
  }

  lemma {:induction false} BeliefsByIdAt(bs: seq<Belief>, id: Id)
    ensures id in BeliefsById(bs) <==> id in BeliefIds(bs)
    ensures id in BeliefsById(bs) ==> BeliefsById(bs)[id] in bs && BeliefsById(bs)[id].proposition.id == id
  {
    if |bs| > 0 {
      var n := |bs| - 1;
      BeliefsByIdAt(bs[..n], id);
      assert BeliefIds(bs)[..n] == BeliefIds(bs[..n]);
      InLast(BeliefIds(bs), id);
      InLast(bs, BeliefsById(bs)[if id in BeliefsById(bs) then id else bs[n].proposition.id]);
    }
  }

  lemma {:induction false} BuildBeliefsAt(snapshotId: Id, previous: map<Id, Belief>,
                                          evidence: map<Id, E.EvidenceRequest>, ps: seq<Proposition>)
    requires BuildBeliefs(snapshotId, previous, evidence, ps).Ok?
    ensures var bs := BuildBeliefs(snapshotId, previous, evidence, ps).value;
      && |bs| == |ps|
      && forall i :: 0 <= i < |ps| ==>
           BeliefFor(snapshotId, ps[i], Lookup(previous, ps[i].id), Lookup(evidence, ps[i].id)) == Ok(bs[i])
  {
    if |ps| > 0 {
      var n := |ps| - 1;
      BuildBeliefsAt(snapshotId, previous, evidence, ps[..n]);
      assert forall i :: 0 <= i < n ==> ps[..n][i] == ps[i];
    }
  }

  predicate PreviousOk(p: Proposition, prev: Option<Belief>) {
    prev.Some? ==> ValidBelief(prev.value) && prev.value.proposition == p
  }

  lemma BeliefForIsValid(snapshotId: Id, p: Proposition, prev: Option<Belief>, er: Option<E.EvidenceRequest>)
    requires PreviousOk(p, prev) && BeliefFor(snapshotId, p, prev, er).Ok?
    ensures ValidBelief(BeliefFor(snapshotId, p, prev, er).value)
    ensures BeliefFor(snapshotId, p, prev, er).value.proposition == p
    ensures prev.Some? ==> prev.value.revisions <= BeliefFor(snapshotId, p, prev, er).value.revisions
  {
    var b := BeliefFor(snapshotId, p, prev, er).value;
    if er.Some? {
      var history := History(prev);
      var rev := b.revisions[|history|];
      assert b.revisions == history + [rev];
      assert RevisionIds(b.revisions) == RevisionIds(history) + [rev.revisionId];
      DistinctAppend(RevisionIds(history), rev.revisionId);
    }
  }

  // ----- The built snapshot -----

  function BeliefOf(s: Snapshot, id: Id): Option<Belief> { Lookup(BeliefsById(s.beliefs), id) }

  function PreviousBelief(r: Request, id: Id): Option<Belief> { Lookup(BeliefsById(PreviousBeliefs(r)), id) }

  function EvidenceFor(r: Request, id: Id): Option<E.EvidenceRequest> {
    Lookup(EvidenceByClaim(r.evidenceRequests), id)
  }

  lemma {:induction false} DistinctIdsAgree(bs: seq<Belief>, i: nat)
    requires i < |bs| && Distinct(BeliefIds(bs))
    ensures Lookup(BeliefsById(bs), bs[i].proposition.id) == Some(bs[i])
  {
    var n := |bs| - 1;
    if i < n {
      var ids := BeliefIds(bs);
      assert BeliefIds(bs[..n]) == ids[..n];
      assert ids[i] != ids[n];
      DistinctIdsAgree(bs[..n], i);
    }
  }

  lemma DistinctPropositionsAgree(ps: seq<Proposition>, p: Proposition, q: Proposition)
    requires Distinct(PropositionIds(ps)) && p in ps && q in ps && p.id == q.id
    ensures p == q
  {
    var i :| 0 <= i < |ps| && ps[i] == p;
    var j :| 0 <= j < |ps| && ps[j] == q;
    assert PropositionIds(ps)[i] == PropositionIds(ps)[j];
  }

  // What the previous state says about a proposition is about that very proposition.
  lemma PreviousIsSame(r: Request, p: Proposition)
    requires RequestError(r).None? && p in r.propositions
    ensures PreviousOk(p, PreviousBelief(r, p.id))
  {
    PropositionErrorIff(r, r.propositions);
    BeliefsByIdAt(PreviousBeliefs(r), p.id);
    if r.previousState.Some? && PreviousBelief(r, p.id).Some? {
      AcceptedKeepsPropositions(r);
      DistinctPropositionsAgree(r.propositions, p, PreviousBelief(r, p.id).value.proposition);
    }
  }

  // Every accepted build yields a snapshot its own constructor accepts, with
  // one belief for each requested proposition, in order.
  lemma BuildIsValid(r: Request)
    requires Build(r).Ok?
    ensures var s := Build(r).value;
      && ValidSnapshot(s) && BeliefIds(s.beliefs) == PropositionIds(r.propositions)
      && |s.beliefs| == |r.propositions|
      && forall i :: 0 <= i < |s.beliefs| ==>
           && s.beliefs[i].proposition == r.propositions[i]
           && BeliefFor(r.snapshotId, r.propositions[i], PreviousBelief(r, r.propositions[i].id),
                        EvidenceFor(r, r.propositions[i].id)) == Ok(s.beliefs[i])
  {
    var s, ps := Build(r).value, r.propositions;
    PropositionErrorIff(r, ps);
    BuildBeliefsAt(r.snapshotId, BeliefsById(PreviousBeliefs(r)), EvidenceByClaim(r.evidenceRequests), ps);
    forall i | 0 <= i < |ps|
      ensures ValidBelief(s.beliefs[i]) && s.beliefs[i].proposition == ps[i]
    {
      PreviousIsSame(r, ps[i]);
      BeliefForIsValid(r.snapshotId, ps[i], PreviousBelief(r, ps[i].id), EvidenceFor(r, ps[i].id));
    }
    assert BeliefIds(s.beliefs) == PropositionIds(ps);
  }

  // The belief about any requested proposition, by its id.
  lemma BuiltBelief(r: Request, p: Proposition)
    requires Build(r).Ok? && p in r.propositions
    ensures BeliefOf(Build(r).value, p.id).Some?
    ensures BeliefFor(r.snapshotId, p, PreviousBelief(r, p.id), EvidenceFor(r, p.id))
         == Ok(BeliefOf(Build(r).value, p.id).value)
  {
    BuildIsValid(r);
    var i :| 0 <= i < |r.propositions| && r.propositions[i] == p;
    DistinctIdsAgree(Build(r).value.beliefs, i);
  }

  // ----- What a belief rests on -----

  // What each status says about the two sides of the evidence.
  predicate StatusSays(status: BeliefStatus, support: bool, contradiction: bool) {
    && (status == Established <==> support && !contradiction)
    && (status == Refuted <==> !support && contradiction)
    && (status == Contested <==> support && contradiction)
    && (status == Unknown <==> !support && !contradiction)
  }

  predicate StandsOn(status: BeliefStatus, e: E.EvidenceRequest) {
    StatusSays(status, E.Qualifies(E.Side(e, E.Supports)), E.Qualifies(E.Side(e, E.Contradicts)))
  }

  lemma StatusMeaning(e: E.EvidenceRequest)
    ensures StandsOn(StatusForVerdict(E.VerdictOf(e)), e)
  {
    E.VerdictMeaning(e);
  }

  // The belief cites the evidence's records and ends its history in a revision
  // that names the snapshot, the proposition and the assessment.
  ghost predicate Reassesses(snapshotId: Id, e: E.EvidenceRequest, history: seq<Revision>, b: Belief) {
    && StandsOn(b.status, e)
    && (forall id :: id in b.supporting <==> E.Cites(e, E.Supports, id))
    && (forall id :: id in b.contradicting <==> E.Cites(e, E.Contradicts, id))
    && (forall id :: id in b.ignored <==> E.SomeSetAside(e, e.evidence, id))
    && |b.revisions| == |history| + 1 && b.revisions[..|history|] == history
    && var last := b.revisions[|history|];
       && last.revisionId == snapshotId + ":" + b.proposition.id + ":" + e.assessmentId
       && last.snapshotId == snapshotId && last.status == b.status
       && last.assessment.Some? && E.Assess(e) == Ok(last.assessment.value)
  }

  predicate Introduces(snapshotId: Id, b: Belief) {
    && b.status == Unknown && b.supporting == [] && b.contradicting == [] && b.ignored == []
    && |b.revisions| == 1
    && b.revisions[0] == Revision(snapshotId + ":" + b.proposition.id + ":unknown", snapshotId, Unknown, None)
  }

  ghost predicate Fits(r: Request, p: Proposition, b: Belief) {
    && b.proposition == p
    && (forall e :: e in r.evidenceRequests && e.claimId == p.id ==>
          Reassesses(r.snapshotId, e, History(PreviousBelief(r, p.id)), b))
    && (p.id !in Claims(r.evidenceRequests) ==>
          match PreviousBelief(r, p.id) case Some(was) => b == was case None => Introduces(r.snapshotId, b))
  }

  lemma ReassessedRests(snapshotId: Id, p: Proposition, e: E.EvidenceRequest, history: seq<Revision>)
    requires E.Assess(e).Ok?
    ensures Reassesses(snapshotId, e, history, Reassessed(snapshotId, p, E.Assess(e).value, history))
  {
    StatusMeaning(e);
    forall id
      ensures id in E.Assess(e).value.supporting <==> E.Cites(e, E.Supports, id)
      ensures id in E.Assess(e).value.contradicting <==> E.Cites(e, E.Contradicts, id)
      ensures id in E.Assess(e).value.ignored <==> E.SomeSetAside(e, e.evidence, id)
      ensures E.Assess(e).value.assessmentId == e.assessmentId
    {
      E.AssessmentMeaning(e, id);
    }
    assert E.Assess(e).value.assessmentId == e.assessmentId;
  }

  lemma UnknownTag(snapshotId: Id, id: Id)
    ensures RevisionId(snapshotId, id, "unknown") == snapshotId + ":" + id + ":unknown"
  {
    assert ":unknown" == ":" + "unknown";
  }

  lemma UnassessedIntroduces(snapshotId: Id, p: Proposition)
    ensures Introduces(snapshotId, Unassessed(snapshotId, p))
  {
    UnknownTag(snapshotId, p.id);
  }

  lemma {:induction false} ClaimIsAssessed(r: Request, es: seq<E.EvidenceRequest>, id: Id)
    requires EvidenceError(r, es).None?
    ensures id !in Claims(es) ==> Lookup(EvidenceByClaim(es), id) == None
    ensures forall e :: e in es && e.claimId == id ==> Lookup(EvidenceByClaim(es), id) == Some(e)
  {
    if |es| > 0 {
      var n := |es| - 1;
      ClaimIsAssessed(r, es[..n], id);
      assert es == es[..n] + [es[n]] && Claims(es) == Claims(es[..n]) + [es[n].claimId];
      forall e | e in es[..n] && e.claimId == id ensures es[n].claimId != id {
        var i :| 0 <= i < n && es[i] == e;
        assert Claims(es[..n])[i] == id;
      }
    }
  }

  lemma BeliefFits(r: Request, p: Proposition, b: Belief)
    requires RequestError(r).None? && p in r.propositions
    requires BeliefFor(r.snapshotId, p, PreviousBelief(r, p.id), EvidenceFor(r, p.id)) == Ok(b)
    ensures Fits(r, p, b)
  {
    ClaimIsAssessed(r, r.evidenceRequests, p.id);
    PreviousIsSame(r, p);
    if EvidenceFor(r, p.id).Some? {
      ReassessedRests(r.snapshotId, p, EvidenceFor(r, p.id).value, History(PreviousBelief(r, p.id)));
    } else {
      UnassessedIntroduces(r.snapshotId, p);
    }
  }

  ghost predicate FitsAll(r: Request, s: Snapshot) {
    && s.snapshotId == r.snapshotId && s.goalId == r.goalId && s.agent == r.agent
    && s.previousSnapshotId == (if r.previousState.Some? then Some(r.previousState.value.snapshotId) else None)
    && |s.beliefs| == |r.propositions|
    && forall i :: 0 <= i < |s.beliefs| ==> Fits(r, r.propositions[i], s.beliefs[i])
  }

  lemma BuiltFits(r: Request)
    ensures Build(r).Ok? ==> FitsAll(r, Build(r).value)
  {
    if Build(r).Ok? {
      BuildIsValid(r);
      forall i | 0 <= i < |r.propositions| ensures Fits(r, r.propositions[i], Build(r).value.beliefs[i]) {
        BeliefFits(r, r.propositions[i], Build(r).value.beliefs[i]);
      }
    }
  }

  // ----- When a request is accepted -----

  predicate PropositionsOk(r: Request) {
    && r.propositions != [] && Distinct(PropositionIds(r.propositions))
    && forall p :: p in r.propositions ==> p.goalId == r.goalId && p.agent == r.agent
  }

  // One request at most for each proposition, by the same agent for the same goal.
  predicate EvidenceOk(r: Request) {
    && Distinct(Claims(r.evidenceRequests))
    && forall e :: e in r.evidenceRequests ==>
         e.goalId == r.goalId && e.agent == r.agent && e.claimId in PropositionIds(r.propositions)
  }

  predicate PreviousStateOk(r: Request) {
    r.previousState.Some? ==>
      var prev := r.previousState.value;
      && ValidSnapshot(prev) && prev.goalId == r.goalId && prev.agent == r.agent && prev.snapshotId != r.snapshotId
      && Keeps(r.propositions, prev.beliefs)
  }

  predicate Acceptable(r: Request) { PropositionsOk(r) && EvidenceOk(r) && PreviousStateOk(r) }

  lemma {:induction false} EvidenceErrorIff(r: Request, es: seq<E.EvidenceRequest>)
    ensures EvidenceError(r, es).None? <==>
      && Distinct(Claims(es))
      && forall e :: e in es ==>
           e.goalId == r.goalId && e.agent == r.agent && e.claimId in PropositionIds(r.propositions)
  {
    if |es| > 0 {
      var n := |es| - 1;
      EvidenceErrorIff(r, es[..n]);
      DistinctLast(Claims(es));
      assert Claims(es)[..n] == Claims(es[..n]) && es == es[..n] + [es[n]];
    }
  }

  lemma PropositionsOkIff(r: Request)
    ensures PropositionsOk(r) <==> |r.propositions| > 0 && PropositionError(r, r.propositions).None?
  {
    PropositionErrorIff(r, r.propositions);
    assert forall i :: 0 <= i < |r.propositions| ==> r.propositions[i] in r.propositions;
  }

  lemma PreviousOkIff(r: Request)
    requires PropositionsOk(r)
    ensures PreviousError(r).None? <==> PreviousStateOk(r)
  {
    if r.previousState.Some? {
      var current, bs := PropositionsById(r.propositions), r.previousState.value.beliefs;
      ContinuityErrorIff(current, bs);
      forall i | 0 <= i < |bs|
        ensures bs[i].proposition in r.propositions <==>
          Lookup(current, bs[i].proposition.id) == Some(bs[i].proposition)
      {
        PropositionLookup(r, bs[i].proposition);
      }
    }
  }

  lemma PropositionLookup(r: Request, p: Proposition)
    requires PropositionsOk(r)
    ensures p in r.propositions <==> Lookup(PropositionsById(r.propositions), p.id) == Some(p)
  {
    PropositionsByIdAt(r.propositions, p.id);
    if p in r.propositions {
      var i :| 0 <= i < |r.propositions| && r.propositions[i] == p;
      assert PropositionIds(r.propositions)[i] == p.id;
      DistinctPropositionsAgree(r.propositions, p, PropositionsById(r.propositions)[p.id]);
    }
  }

  // The chain of checks passes exactly on acceptable requests.
  lemma RequestErrorIff(r: Request)
    ensures RequestError(r).None? <==> Acceptable(r)
  {
    PropositionsOkIff(r);
    EvidenceErrorIff(r, r.evidenceRequests);
    if PropositionsOk(r) { PreviousOkIff(r); }
  }

  // What each refusal says is wrong.
  ghost predicate Wrong(r: Request, e: WorldError) {
    match e
    case NoPropositions => r.propositions == []
    case PropositionGoalMismatch => exists p :: p in r.propositions && p.goalId != r.goalId
    case PropositionAgentMismatch => exists p :: p in r.propositions && p.agent != r.agent
    case DuplicateProposition => !Distinct(PropositionIds(r.propositions))
    case EvidenceGoalMismatch => exists q :: q in r.evidenceRequests && q.goalId != r.goalId
    case EvidenceAgentMismatch => exists q :: q in r.evidenceRequests && q.agent != r.agent
    case UnknownClaim => exists q :: q in r.evidenceRequests && q.claimId !in PropositionIds(r.propositions)
    case DuplicateEvidenceRequest => !Distinct(Claims(r.evidenceRequests))
    case InvalidPreviousState => r.previousState.Some? && !ValidSnapshot(r.previousState.value)
    case PreviousGoalMismatch => r.previousState.Some? && r.previousState.value.goalId != r.goalId
    case PreviousAgentMismatch => r.previousState.Some? && r.previousState.value.agent != r.agent
    case SnapshotMustAdvance => r.previousState.Some? && r.previousState.value.snapshotId == r.snapshotId
    case PropositionDisappears =>
      exists b :: b in PreviousBeliefs(r) && b.proposition.id !in PropositionIds(r.propositions)
    case PropositionRebound =>
      exists b, p :: b in PreviousBeliefs(r) && p in r.propositions && p.id == b.proposition.id && p != b.proposition
    case ConflictingEvidence => exists q :: q in r.evidenceRequests && E.Conflicting(q.evidence)
    case DuplicateRevisionId => exists q :: q in r.evidenceRequests && Retakes(r, q)
  }

  // The revision the evidence asks for is already in the belief's history.
  predicate Retakes(r: Request, q: E.EvidenceRequest) {
    RevisionId(r.snapshotId, q.claimId, q.assessmentId) in RevisionIds(History(PreviousBelief(r, q.claimId)))
  }

  lemma {:induction false} PropositionErrorMeans(r: Request, ps: seq<Proposition>)
    ensures PropositionError(r, ps).Some? ==>
      match PropositionError(r, ps).value
      case PropositionGoalMismatch => exists p :: p in ps && p.goalId != r.goalId
      case PropositionAgentMismatch => exists p :: p in ps && p.agent != r.agent
      case DuplicateProposition => !Distinct(PropositionIds(ps))
      case _ => false
  {
    if |ps| > 0 {
      var n := |ps| - 1;
      PropositionErrorMeans(r, ps[..n]);
      assert ps[n] in ps && forall p :: p in ps[..n] ==> p in ps;
      assert PropositionIds(ps) == PropositionIds(ps[..n]) + [ps[n].id];
      DistinctLast(PropositionIds(ps));
      assert PropositionIds(ps)[..n] == PropositionIds(ps[..n]);
    }
  }

  lemma {:induction false} EvidenceErrorMeans(r: Request, es: seq<E.EvidenceRequest>)
    ensures EvidenceError(r, es).Some? ==>
      match EvidenceError(r, es).value
      case EvidenceGoalMismatch => exists q :: q in es && q.goalId != r.goalId
      case EvidenceAgentMismatch => exists q :: q in es && q.agent != r.agent
      case UnknownClaim => exists q :: q in es && q.claimId !in PropositionIds(r.propositions)
      case DuplicateEvidenceRequest => !Distinct(Claims(es))
      case _ => false
  {
    if |es| > 0 {
      var n := |es| - 1;
      EvidenceErrorMeans(r, es[..n]);
      assert es[n] in es && forall q :: q in es[..n] ==> q in es;
      DistinctLast(Claims(es));
      assert Claims(es)[..n] == Claims(es[..n]);
    }
  }

  lemma {:induction false} ContinuityErrorMeans(ps: seq<Proposition>, bs: seq<Belief>)
    ensures ContinuityError(PropositionsById(ps), bs).Some? ==>
      match ContinuityError(PropositionsById(ps), bs).value
      case PropositionDisappears => exists b :: b in bs && b.proposition.id !in PropositionIds(ps)
      case PropositionRebound =>
        exists b, p :: b in bs && p in ps && p.id == b.proposition.id && p != b.proposition
      case _ => false
  {
    if |bs| > 0 {
      var n := |bs| - 1;
      ContinuityErrorMeans(ps, bs[..n]);
      assert bs[n] in bs && forall b :: b in bs[..n] ==> b in bs;
      PropositionsByIdAt(ps, bs[n].proposition.id);
    }
  }

  lemma RequestErrorMeans(r: Request)
    ensures RequestError(r).Some? ==> Wrong(r, RequestError(r).value)
  {
    PropositionErrorMeans(r, r.propositions);
    EvidenceErrorMeans(r, r.evidenceRequests);
    ContinuityErrorMeans(r.propositions, PreviousBeliefs(r));
  }

  lemma {:induction false} BeliefsErrorMeans(r: Request, ps: seq<Proposition>)
    requires RequestError(r).None? && forall p :: p in ps ==> p in r.propositions
    ensures var built := BuildBeliefs(r.snapshotId, BeliefsById(PreviousBeliefs(r)),
                                      EvidenceByClaim(r.evidenceRequests), ps);
      built.Err? ==> Wrong(r, built.error)
  {
    if |ps| > 0 {
      BeliefsErrorMeans(r, ps[..|ps| - 1]);
      BeliefErrorMeans(r, ps[|ps| - 1]);
    }
  }

  lemma BeliefErrorMeans(r: Request, p: Proposition)
    requires RequestError(r).None? && p in r.propositions
    ensures var built := BeliefFor(r.snapshotId, p, PreviousBelief(r, p.id), EvidenceFor(r, p.id));
      built.Err? ==> Wrong(r, built.error)
  {
    EvidenceIsKnown(r, r.evidenceRequests, p.id);
  }

  lemma {:induction false} EvidenceIsKnown(r: Request, es: seq<E.EvidenceRequest>, id: Id)
    requires EvidenceError(r, es).None?
    ensures id in EvidenceByClaim(es) ==>
      id in PropositionIds(r.propositions) && EvidenceByClaim(es)[id] in es && EvidenceByClaim(es)[id].claimId == id
  {
    if |es| > 0 {
      var n := |es| - 1;
      EvidenceIsKnown(r, es[..n], id);
      assert es == es[..n] + [es[n]];
    }
  }

  lemma BuildErrorMeans(r: Request)
    ensures Build(r).Err? ==> Wrong(r, Build(r).error)
  {
    RequestErrorMeans(r);
    if RequestError(r).None? { BeliefsErrorMeans(r, r.propositions); }
  }

  // No proposition disappears or is rebound, and history is only appended to.
  predicate Extends(prev: Snapshot, next: Snapshot) {
    forall i :: 0 <= i < |prev.beliefs| ==>
      var was := prev.beliefs[i];
      var now := BeliefOf(next, was.proposition.id);
      now.Some? && now.value.proposition == was.proposition && was.revisions <= now.value.revisions
  }

  lemma BuildExtends(r: Request)
    requires Build(r).Ok? && r.previousState.Some?
    ensures Extends(r.previousState.value, Build(r).value)
    ensures Build(r).value.previousSnapshotId == Some(r.previousState.value.snapshotId)
    ensures Build(r).value.goalId == r.previousState.value.goalId && Build(r).value.agent == r.previousState.value.agent
  {
    var prev, next := r.previousState.value, Build(r).value;
    AcceptedKeepsPropositions(r);
    forall i | 0 <= i < |prev.beliefs|
      ensures BeliefOf(next, prev.beliefs[i].proposition.id).Some?
      ensures var now := BeliefOf(next, prev.beliefs[i].proposition.id).value;
        now.proposition == prev.beliefs[i].proposition && prev.beliefs[i].revisions <= now.revisions
    {
      var p := prev.beliefs[i].proposition;
      DistinctIdsAgree(prev.beliefs, i);
      BuiltBelief(r, p);
      PreviousIsSame(r, p);
      BeliefForIsValid(r.snapshotId, p, PreviousBelief(r, p.id), EvidenceFor(r, p.id));
    }
  }

  // ----- When building succeeds -----

  predicate ColonFree(id: Id) { forall i :: 0 <= i < |id| ==> id[i] != ':' }

  // Up to the first colon a revision id is its snapshot id.
  lemma RevisionIdNamesSnapshot(s1: Id, s2: Id, p1: Id, p2: Id, t1: string, t2: string)
    requires ColonFree(s1) && ColonFree(s2)
    requires RevisionId(s1, p1, t1) == RevisionId(s2, p2, t2)
    ensures s1 == s2
  {
    var whole := RevisionId(s1, p1, t1);
    assert whole[|s1|] == ':' && whole[|s2|] == ':';
    assert whole[..|s1|] == s1 && whole[..|s2|] == s2;
    assert |s1| >= |s2| by {
      assert forall k :: 0 <= k < |s2| ==> whole[k] == s2[k];
    }
    assert |s2| >= |s1| by {
      assert forall k :: 0 <= k < |s1| ==> whole[k] == s1[k];
    }
  }
}
