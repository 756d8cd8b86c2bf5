// The memory durability policy of brain/memory_policy.py.
module MemoryPolicy {
  import opened Foundation
  import E = Evidence

  datatype Kind = Working | Episodic | DecisionMemory | Experiment | SuccessFailure | UserBrandPreference
  datatype Authority = AgentInferred | ObservedAuthority | UserConfirmed
  datatype ScopeLevel = Global | Business | Project | Brand | Product | Campaign
  datatype Disposition = Ephemeral | CandidateOnly | Verified | Promoted | Rejected

  datatype Candidate = Candidate(
    candidateId: Id, goalId: Id, claimId: Id, agent: Agent, kind: Kind, authority: Authority,
    origin: ScopeLevel, requested: ScopeLevel, verdict: E.Verdict, refs: seq<Id>,
    runCount: nat, runs: seq<E.EvidenceRequest>)

  datatype Decision = Decision(candidateId: Id, disposition: Disposition, scope: ScopeLevel)

  datatype MemoryError =
    | RunCountMismatch | RunGoalMismatch | RunClaimMismatch | RunAgentMismatch | DuplicateAssessment
    | ConflictingEvidence | VerdictMismatch | RefsMismatch

  function ScopeRank(s: ScopeLevel): nat {
    match s
    case Global => 0
    case Business => 1
    case Project => 2
    case Brand => 3
    case Product => 4
    case Campaign => 5
  }

  predicate WouldBroaden(c: Candidate) { ScopeRank(c.requested) < ScopeRank(c.origin) }

  // ----- Supported-run provenance -----

  // A run that is not supported empties the result at once, whatever follows.
  datatype RunScan = Scanning(refs: seq<Id>) | Emptied | Failed(error: MemoryError)

  function Assessments(runs: seq<E.EvidenceRequest>): (r: seq<Id>)
    ensures |r| == |runs|
  {
    seq(|runs|, i requires 0 <= i < |runs| => runs[i].assessmentId)
  }

  function ScanRun(c: Candidate, before: seq<E.EvidenceRequest>, refs: seq<Id>, run: E.EvidenceRequest): RunScan {
    if run.goalId != c.goalId then Failed(RunGoalMismatch)
    else if run.claimId != c.claimId then Failed(RunClaimMismatch)
    else if run.agent != c.agent then Failed(RunAgentMismatch)
    else if run.assessmentId in Assessments(before) then Failed(DuplicateAssessment)
    else match E.Assess(run)
      case Err(_) => Failed(ConflictingEvidence)
      case Ok(a) => if a.verdict.Supported? then Scanning(Dedupe(refs + a.supporting)) else Emptied
  }

  function ScanRuns(c: Candidate, runs: seq<E.EvidenceRequest>): RunScan {
    if |runs| == 0 then Scanning([])
    else match ScanRuns(c, runs[..|runs| - 1])
      case Scanning(refs) => ScanRun(c, runs[..|runs| - 1], refs, runs[|runs| - 1])
      case other => other
  }

  function Provenance(c: Candidate): Result<bool, MemoryError> {
    if |c.runs| < 3 then Ok(false)
    else if c.runCount != |c.runs| then Err(RunCountMismatch)
    else match ScanRuns(c, c.runs)
      case Failed(e) => Err(e)
      case Emptied => Ok(false)
      case Scanning(refs) =>
        if |refs| == 0 then Ok(false)
        else if !c.verdict.Supported? then Err(VerdictMismatch)
        else if Elems(c.refs) != Elems(refs) then Err(RefsMismatch)
        else Ok(true)
  }

  function Disposed(c: Candidate): Result<Disposition, MemoryError> {
    if WouldBroaden(c) then Ok(Rejected)
    else if c.kind.Working? then Ok(Ephemeral)
    else if c.kind.UserBrandPreference? then Ok(if c.authority.UserConfirmed? then Promoted else Ephemeral)
    else if c.verdict.Refuted? then Ok(Rejected)
    else if c.verdict.Contested? || c.verdict.Insufficient? then Ok(Ephemeral)
    else if !c.authority.ObservedAuthority? then Ok(CandidateOnly)
    else if |c.refs| == 0 then Ok(Ephemeral)
    else if c.runCount == 1 then Ok(CandidateOnly)
    else if c.runCount == 2 then Ok(Verified)
    else if c.kind.Experiment? || c.kind.SuccessFailure? then
      match Provenance(c)
      case Err(e) => Err(e)
      case Ok(backed) => Ok(if backed then Promoted else CandidateOnly)
    else Ok(Verified)
  }

  // A rejected broadening keeps the scope the memory was established in.
  function Evaluate(c: Candidate): Result<Decision, MemoryError> {
    match Disposed(c)
    case Err(e) => Err(e)
    case Ok(d) => Ok(Decision(c.candidateId, d, if WouldBroaden(c) then c.origin else c.requested))
  }

  ghost predicate Scanned(c: Candidate, i: nat, ids: set<Id>, refs: seq<Id>)
    requires i <= |c.runs|
  {
    && ScanRuns(c, c.runs[..i]) == Scanning(refs) && Distinct(refs)
    && ids == Elems(Assessments(c.runs[..i]))
  }

  lemma AssessmentsSnoc(runs: seq<E.EvidenceRequest>, i: nat)
    requires i < |runs|
    ensures Assessments(runs[..i + 1]) == Assessments(runs[..i]) + [runs[i].assessmentId]
    ensures Elems(Assessments(runs[..i + 1])) == Elems(Assessments(runs[..i])) + {runs[i].assessmentId}
  {
  }

  lemma ScanLast(c: Candidate, runs: seq<E.EvidenceRequest>, refs: seq<Id>)
    requires |runs| > 0 && ScanRuns(c, runs[..|runs| - 1]) == Scanning(refs)
    ensures ScanRuns(c, runs) == ScanRun(c, runs[..|runs| - 1], refs, runs[|runs| - 1])
  {
  }

  lemma ScanStep(c: Candidate, i: nat, ids: set<Id>, refs: seq<Id>)
    requires i < |c.runs| && Scanned(c, i, ids, refs)
    ensures var scan := ScanRun(c, c.runs[..i], refs, c.runs[i]);
      && (!scan.Scanning? ==> ScanRuns(c, c.runs) == scan)
      && (scan.Scanning? && Distinct(scan.refs) ==> Scanned(c, i + 1, ids + {c.runs[i].assessmentId}, scan.refs))
  {
    assert c.runs[..i + 1][..i] == c.runs[..i];
    AssessmentsSnoc(c.runs, i);
    ScanLast(c, c.runs[..i + 1], refs);
    ScanPrefix(c, c.runs, i + 1);
  }

  method CanonicalSupportedRunRefs(c: Candidate) returns (scan: RunScan)
    ensures scan == ScanRuns(c, c.runs)
  {
    var ids: set<Id> := {};
    var refs: seq<Id> := [];
    var i := 0;
    assert Scanned(c, 0, ids, refs);
    while i < |c.runs|
      invariant 0 <= i <= |c.runs|
      invariant Scanned(c, i, ids, refs)
    {
      ScanStep(c, i, ids, refs);
      scan := ScanOneRun(c, c.runs[..i], ids, refs, c.runs[i]);
      if !scan.Scanning? { return; }
      refs := scan.refs;
      ids := ids + {c.runs[i].assessmentId};
      i := i + 1;
    }
    assert c.runs[..|c.runs|] == c.runs;
    scan := Scanning(refs);
  }

  method ScanOneRun(c: Candidate, ghost before: seq<E.EvidenceRequest>, ids: set<Id>, refs: seq<Id>,
                    run: E.EvidenceRequest) returns (scan: RunScan)
    requires ids == Elems(Assessments(before)) && Distinct(refs)
    ensures scan == ScanRun(c, before, refs, run)
    ensures scan.Scanning? ==> Distinct(scan.refs)
  {
    if run.goalId != c.goalId { return Failed(RunGoalMismatch); }
    if run.claimId != c.claimId { return Failed(RunClaimMismatch); }
    if run.agent != c.agent { return Failed(RunAgentMismatch); }
    if run.assessmentId in ids { return Failed(DuplicateAssessment); }
    var assessed := E.AssessClaimEvidence(run);
    if assessed.Err? { return Failed(ConflictingEvidence); }
    if !assessed.value.verdict.Supported? { return Emptied; }
    var merged := MergeRefs(refs, assessed.value.supporting);
    scan := Scanning(merged);
  }

  // Append the references not seen yet, in order.
  method MergeRefs(refs: seq<Id>, more: seq<Id>) returns (merged: seq<Id>)
    requires Distinct(refs)
    ensures merged == Dedupe(refs + more) && Distinct(merged)
  {
    merged := refs;
    MergeNothing(refs, more);
    for j := 0 to |more|
      invariant merged == Dedupe(refs + more[..j])
    {
      MergeStep(refs, more, j);
      if more[j] !in merged { merged := merged + [more[j]]; }
    }
    assert more[..|more|] == more;
    DedupeMeaning(refs + more);
  }

  lemma MergeNothing(refs: seq<Id>, more: seq<Id>)
    requires Distinct(refs)
    ensures Dedupe(refs + more[..0]) == refs
  {
    assert refs + more[..0] == refs;
    DedupeMeaning(refs);
  }

  lemma MergeStep(refs: seq<Id>, more: seq<Id>, j: nat)
    requires j < |more|
    ensures Dedupe(refs + more[..j + 1]) ==
      if more[j] in Dedupe(refs + more[..j]) then Dedupe(refs + more[..j]) else Dedupe(refs + more[..j]) + [more[j]]
  {
    assert refs + more[..j + 1] == (refs + more[..j]) + [more[j]];
    DedupeSnoc(refs + more[..j], more[j]);
  }

  lemma {:induction false} ScanPrefix(c: Candidate, runs: seq<E.EvidenceRequest>, k: nat)
    requires k <= |runs|
    ensures !ScanRuns(c, runs[..k]).Scanning? ==> ScanRuns(c, runs) == ScanRuns(c, runs[..k])
  {
    if k < |runs| {
      assert runs[..|runs| - 1][..k] == runs[..k];
      ScanPrefix(c, runs[..|runs| - 1], k);
    } else {
      assert runs[..k] == runs;
    }
  }

  // Each disposition, each error and the effective scope, by the candidate's
  // fields and its runs.
  method EvaluateMemoryCandidate(c: Candidate) returns (r: Result<Decision, MemoryError>)
    ensures r == Evaluate(c)
    ensures r.Err? <==> ProvenanceFails(c)
    ensures r.Err? ==> Wrong(c, r.error)
    ensures r.Ok? ==> Judges(c, r.value)
  {
    EvaluationMeaning(c);
    if WouldBroaden(c) { return Ok(Decision(c.candidateId, Rejected, c.origin)); }
    var d: Disposition;
    if c.kind == Working {
      d := Ephemeral;
    } else if c.kind == UserBrandPreference {
      d := if c.authority == UserConfirmed then Promoted else Ephemeral;
    } else if c.verdict == E.Refuted {
      d := Rejected;
    } else if c.verdict == E.Contested || c.verdict == E.Insufficient {
      d := Ephemeral;
    } else if c.authority != ObservedAuthority {
      d := CandidateOnly;
    } else if |c.refs| == 0 {
      d := Ephemeral;
    } else if c.runCount == 1 {
      d := CandidateOnly;
    } else if c.runCount == 2 {
      d := Verified;
    } else if c.kind == Experiment || c.kind == SuccessFailure {
      if |c.runs| >= 3 && c.runCount != |c.runs| { return Err(RunCountMismatch); }
      d := CandidateOnly;
      if |c.runs| >= 3 {
        var scan := CanonicalSupportedRunRefs(c);
        if scan.Failed? { return Err(scan.error); }
        if scan.Scanning? && |scan.refs| > 0 {
          if Elems(c.refs) != Elems(scan.refs) { return Err(RefsMismatch); }
          d := Promoted;
        }
      }
    } else {
      d := Verified;
    }
    r := Ok(Decision(c.candidateId, d, c.requested));
  }

  // ----- What promotion means -----

  // A run of this goal, claim and agent whose own evidence supports the claim.
  predicate BacksRun(c: Candidate, run: E.EvidenceRequest) {
    && run.goalId == c.goalId && run.claimId == c.claimId && run.agent == c.agent
    && E.Assess(run).Ok? && E.Assess(run).value.verdict.Supported?
  }

  // What its assessment lists as supporting.
  function SupportingRefs(run: E.EvidenceRequest): seq<Id> {
    E.Refs(E.SideSignals(run, run.evidence, E.Supports))
  }

  predicate AllBack(c: Candidate, runs: seq<E.EvidenceRequest>) {
    |runs| == 0 || (AllBack(c, runs[..|runs| - 1]) && BacksRun(c, runs[|runs| - 1]))
  }

  // The references some run lists as supporting.
  function AllSupporting(runs: seq<E.EvidenceRequest>): set<Id> {
    if |runs| == 0 then {} else AllSupporting(runs[..|runs| - 1]) + Elems(SupportingRefs(runs[|runs| - 1]))
  }

  lemma ScanRunIff(c: Candidate, before: seq<E.EvidenceRequest>, refs: seq<Id>, run: E.EvidenceRequest)
    ensures ScanRun(c, before, refs, run).Scanning? <==> BacksRun(c, run) && run.assessmentId !in Assessments(before)
    ensures ScanRun(c, before, refs, run).Scanning? ==>
      Elems(ScanRun(c, before, refs, run).refs) == Elems(refs) + Elems(SupportingRefs(run))
  {
    ElemsAppend(refs, SupportingRefs(run));
    DedupeMeaning(refs + SupportingRefs(run));
  }

  lemma {:induction false} ScanRunsIff(c: Candidate, runs: seq<E.EvidenceRequest>)
    ensures ScanRuns(c, runs).Scanning? <==> AllBack(c, runs) && Distinct(Assessments(runs))
    ensures ScanRuns(c, runs).Scanning? ==> Elems(ScanRuns(c, runs).refs) == AllSupporting(runs)
  {
    if |runs| > 0 {
      var n := |runs| - 1;
      ScanRunsIff(c, runs[..n]);
      assert Assessments(runs)[..n] == Assessments(runs[..n]);
      DistinctLast(Assessments(runs));
      if ScanRuns(c, runs[..n]).Scanning? {
        ScanRunIff(c, runs[..n], ScanRuns(c, runs[..n]).refs, runs[n]);
      }
    }
  }

  // At least three runs, matching the count, each re-derived as supporting this
  // very claim under its own assessment id, and citing exactly their references.
  predicate Institutional(c: Candidate) {
    && c.runCount == |c.runs| && |c.runs| >= 3
    && AllBack(c, c.runs) && Distinct(Assessments(c.runs))
    && Elems(c.refs) == AllSupporting(c.runs)
  }

  lemma ProvenanceIff(c: Candidate)
    requires c.verdict.Supported? && |c.refs| > 0
    ensures Provenance(c) == Ok(true) <==> Institutional(c)
  {
    ScanRunsIff(c, c.runs);
    assert c.refs[0] in Elems(c.refs);
  }

  // For backed runs only the cited references are left to decide.
  lemma ProvenanceOfBacked(c: Candidate)
    requires c.runCount == |c.runs| >= 3 && c.verdict.Supported?
    requires AllBack(c, c.runs) && Distinct(Assessments(c.runs)) && AllSupporting(c.runs) != {}
    ensures Provenance(c) == if Elems(c.refs) == AllSupporting(c.runs) then Ok(true) else Err(RefsMismatch)
  {
    ScanRunsIff(c, c.runs);
    var refs := ScanRuns(c, c.runs).refs;
    assert |refs| == 0 ==> Elems(refs) == {};
  }

  // The outcome of an observed, supported institutional memory.
  lemma InstitutionalChain(c: Candidate, p: Result<bool, MemoryError>)
    requires (c.kind.Experiment? || c.kind.SuccessFailure?) && c.verdict.Supported?
    requires c.authority.ObservedAuthority? && |c.refs| > 0
    requires c.runCount > 0 && (c.runCount >= 3 ==> Provenance(c) == p)
    ensures Disposed(c) ==
      if WouldBroaden(c) then Ok(Rejected)
      else if c.runCount == 1 then Ok(CandidateOnly)
      else if c.runCount == 2 then Ok(Verified)
      else match p case Err(e) => Err(e) case Ok(backed) => Ok(if backed then Promoted else CandidateOnly)
  {
  }

  lemma PromotedChain(c: Candidate, backed: bool)
    requires c.kind.Experiment? || c.kind.SuccessFailure?
    requires Provenance(c) == Ok(true) <==> backed
    ensures Disposed(c) == Ok(Promoted) <==>
      && !WouldBroaden(c) && c.verdict.Supported? && c.authority.ObservedAuthority? && |c.refs| > 0
      && c.runCount != 1 && c.runCount != 2 && backed
  {
  }

  // Institutional promotion happens exactly on that provenance: summary fields
  // alone never promote. Between runs it asks for different assessment ids
  // only; independent sources are what consolidation adds.
  lemma PromotedIff(c: Candidate)
    requires c.kind.Experiment? || c.kind.SuccessFailure?
    ensures Disposed(c) == Ok(Promoted) <==>
      && !WouldBroaden(c) && c.verdict.Supported? && c.authority.ObservedAuthority? && |c.refs| > 0
      && Institutional(c)
  {
    PromotedChain(c, Provenance(c) == Ok(true));
    if c.verdict.Supported? && |c.refs| > 0 { ProvenanceIff(c); }
  }

  // ----- What each disposition means -----

  // The scopes from widest to narrowest.
  predicate Within(inner: ScopeLevel, outer: ScopeLevel) {
    match outer
    case Global => true
    case Business => !inner.Global?
    case Project => !inner.Global? && !inner.Business?
    case Brand => inner.Brand? || inner.Product? || inner.Campaign?
    case Product => inner.Product? || inner.Campaign?
    case Campaign => inner.Campaign?
  }

  // Kept on evidence: neither session context nor a preference.
  predicate Evidential(k: Kind) { k.Episodic? || k.DecisionMemory? || k.Experiment? || k.SuccessFailure? }

  predicate IsInstitutional(k: Kind) { k.Experiment? || k.SuccessFailure? }

  // Within its scope, on supported evidence.
  predicate Supportive(c: Candidate) {
    Within(c.requested, c.origin) && Evidential(c.kind) && c.verdict.Supported?
  }

  predicate Grounded(c: Candidate) { Supportive(c) && c.authority.ObservedAuthority? && c.refs != [] }

  // The k-th run is the first that cannot be this candidate's.
  predicate Offends(c: Candidate, k: nat)
    requires k < |c.runs|
  {
    && AllBack(c, c.runs[..k]) && Distinct(Assessments(c.runs[..k]))
    && (c.runs[k].goalId != c.goalId || c.runs[k].claimId != c.claimId || c.runs[k].agent != c.agent
        || c.runs[k].assessmentId in Assessments(c.runs[..k]) || E.Conflicting(c.runs[k].evidence))
  }

  // One of the first k runs does.
  predicate SomeOffends(c: Candidate, k: nat)
    requires k <= |c.runs|
  {
    k > 0 && (SomeOffends(c, k - 1) || Offends(c, k - 1))
  }

  predicate ProvenanceFails(c: Candidate) {
    && Grounded(c) && IsInstitutional(c.kind) && c.runCount != 1 && c.runCount != 2 && |c.runs| >= 3
    && (|| c.runCount != |c.runs|
        || SomeOffends(c, |c.runs|)
        || (AllBack(c, c.runs) && Distinct(Assessments(c.runs)) && Elems(c.refs) != AllSupporting(c.runs)))
  }

  predicate Judges(c: Candidate, d: Decision) {
    && d.candidateId == c.candidateId
    && d.scope == (if Within(c.requested, c.origin) then c.requested else c.origin)
    && (d.disposition == Rejected <==>
          !Within(c.requested, c.origin) || (Evidential(c.kind) && c.verdict.Refuted?))
    && (d.disposition == Promoted <==>
          && Within(c.requested, c.origin)
          && (|| (c.kind.UserBrandPreference? && c.authority.UserConfirmed?)
              || (IsInstitutional(c.kind) && Grounded(c) && Institutional(c))))
    && (d.disposition == Ephemeral <==>
          && Within(c.requested, c.origin)
          && (|| c.kind.Working?
              || (c.kind.UserBrandPreference? && !c.authority.UserConfirmed?)
              || (Evidential(c.kind) && (c.verdict.Contested? || c.verdict.Insufficient?))
              || (Supportive(c) && c.authority.ObservedAuthority? && c.refs == [])))
    && (d.disposition == Verified <==>
          Grounded(c) && (c.runCount == 2 || (c.runCount != 1 && !IsInstitutional(c.kind))))
    && (d.disposition == CandidateOnly <==>
          && Supportive(c)
          && (|| !c.authority.ObservedAuthority?
              || (c.refs != [] && c.runCount == 1)
              || (c.refs != [] && c.runCount != 2 && IsInstitutional(c.kind) && !Institutional(c))))
  }

  // What each refusal says is wrong; a verdict other than SUPPORTED never gets
  // as far as the check of provenance.
  predicate Wrong(c: Candidate, e: MemoryError) {
    match e
    case RunCountMismatch => c.runCount != |c.runs|
    case RunGoalMismatch => exists run :: run in c.runs && run.goalId != c.goalId
    case RunClaimMismatch => exists run :: run in c.runs && run.claimId != c.claimId
    case RunAgentMismatch => exists run :: run in c.runs && run.agent != c.agent
    case DuplicateAssessment => !Distinct(Assessments(c.runs))
    case ConflictingEvidence => exists run :: run in c.runs && E.Conflicting(run.evidence)
    case VerdictMismatch => false
    case RefsMismatch => Elems(c.refs) != AllSupporting(c.runs)
  }

  lemma BroadensIff(c: Candidate)
    ensures WouldBroaden(c) <==> !Within(c.requested, c.origin)
  {
  }

  // The k-th run fails the scan exactly when it is the one that offends.
  lemma ScanFailsAt(c: Candidate, k: nat)
    requires k < |c.runs|
    ensures ScanRuns(c, c.runs[..k + 1]).Failed? <==> ScanRuns(c, c.runs[..k]).Failed? || Offends(c, k)
  {
    assert c.runs[..k + 1][..k] == c.runs[..k];
    ScanRunsIff(c, c.runs[..k]);
    if ScanRuns(c, c.runs[..k]).Scanning? {
      ScanLast(c, c.runs[..k + 1], ScanRuns(c, c.runs[..k]).refs);
    }
  }

  lemma {:induction false} ScanFailsIff(c: Candidate, k: nat)
    requires k <= |c.runs|
    ensures ScanRuns(c, c.runs[..k]).Failed? <==> SomeOffends(c, k)
  {
    if k > 0 {
      ScanFailsIff(c, k - 1);
      ScanFailsAt(c, k - 1);
    }
  }

  lemma {:induction false} ScanErrorMeans(c: Candidate, k: nat)
    requires k <= |c.runs|
    ensures var scan := ScanRuns(c, c.runs[..k]);
      scan.Failed? ==> scan.error != RunCountMismatch && scan.error != RefsMismatch && Wrong(c, scan.error)
  {
    if k > 0 {
      ScanErrorMeans(c, k - 1);
      assert c.runs[..k][..k - 1] == c.runs[..k - 1] && c.runs[k - 1] in c.runs;
      if c.runs[k - 1].assessmentId in Assessments(c.runs[..k - 1]) {
        var i :| 0 <= i < k - 1 && Assessments(c.runs[..k - 1])[i] == c.runs[k - 1].assessmentId;
        assert Assessments(c.runs)[i] == Assessments(c.runs)[k - 1];
      }
    }
  }

  lemma ProvenanceMeaning(c: Candidate)
    requires c.verdict.Supported? && c.refs != []
    ensures Provenance(c) == Ok(true) <==> Institutional(c)
    ensures Provenance(c).Err? <==>
      && |c.runs| >= 3
      && (|| c.runCount != |c.runs|
          || SomeOffends(c, |c.runs|)
          || (AllBack(c, c.runs) && Distinct(Assessments(c.runs)) && Elems(c.refs) != AllSupporting(c.runs)))
    ensures Provenance(c).Err? ==> Wrong(c, Provenance(c).error)
  {
    ProvenanceIff(c);
    assert c.runs[..|c.runs|] == c.runs;
    ScanFailsIff(c, |c.runs|);
    ScanErrorMeans(c, |c.runs|);
    ScanRunsIff(c, c.runs);
    if |c.runs| >= 3 && AllBack(c, c.runs) { BackedRefs(c, c.runs); }
  }

  lemma BackedRefs(c: Candidate, runs: seq<E.EvidenceRequest>)
    requires |runs| > 0 && AllBack(c, runs)
    ensures AllSupporting(runs) != {}
  {
    var last := runs[|runs| - 1];
    E.SupportedHasSources(last);
    assert SupportingRefs(last)[0] in Elems(SupportingRefs(last));
    assert SupportingRefs(last)[0] in AllSupporting(runs);
  }

  // The chain of rules, with what the provenance check answered.
  lemma DisposedMeaning(c: Candidate, p: Result<bool, MemoryError>)
    requires c.verdict.Supported? && c.refs != [] ==> p == Provenance(c) && (p == Ok(true) <==> Institutional(c))
    ensures var fails := Grounded(c) && IsInstitutional(c.kind) && c.runCount != 1 && c.runCount != 2 && p.Err?;
      && (Disposed(c).Err? <==> fails)
      && (fails ==> Disposed(c).error == p.error)
      && (!fails ==> Judges(c, Evaluate(c).value))
  {
    BroadensIff(c);
    assert |c.refs| == 0 <==> c.refs == [];
  }

  lemma EvaluationMeaning(c: Candidate)
    ensures Evaluate(c).Err? <==> ProvenanceFails(c)
    ensures Evaluate(c).Err? ==> Wrong(c, Evaluate(c).error)
    ensures Evaluate(c).Ok? ==> Judges(c, Evaluate(c).value)
  {
    if c.verdict.Supported? && c.refs != [] { ProvenanceMeaning(c); }
    DisposedMeaning(c, Provenance(c));
  }

  // ----- One source, three assessments -----

  // A run whose only evidence is one strong record of one source.
  function ReplayedRun(assessmentId: Id): E.EvidenceRequest {
    E.EvidenceRequest(assessmentId, "g", "h", Cmo, [E.Signal("e", "g", "h", "s", E.Supports, E.Strong, E.Observed)])
  }

  function ReplayedRuns(a: Id, b: Id, c: Id): Candidate {
    Candidate("m", "g", "h", Cmo, Experiment, ObservedAuthority, Brand, Brand, E.Supported, ["e"], 3,
              [ReplayedRun(a), ReplayedRun(b), ReplayedRun(c)])
  }

  lemma ReplayedRunBacks(c: Candidate, assessmentId: Id)
    requires c.goalId == "g" && c.claimId == "h" && c.agent == Cmo
    ensures BacksRun(c, ReplayedRun(assessmentId)) && SupportingRefs(ReplayedRun(assessmentId)) == ["e"]
  {
    var run := ReplayedRun(assessmentId);
    E.OneSignalVerdict(run, run.evidence[0]);
    E.OneSignalRefs(run, run.evidence[0]);
  }

  // The same record submitted under three assessment ids is promoted.
  lemma ReplayedSourcePromotes(a: Id, b: Id, c: Id)
    requires a != b && a != c && b != c
    ensures Disposed(ReplayedRuns(a, b, c)) == Ok(Promoted)
  {
    ReplayedIsInstitutional(a, b, c);
    PromotedIff(ReplayedRuns(a, b, c));
  }

  lemma ReplayedIsInstitutional(a: Id, b: Id, c: Id)
    requires a != b && a != c && b != c
    ensures Institutional(ReplayedRuns(a, b, c))
  {
    var m := ReplayedRuns(a, b, c);
    ReplayedRunBacks(m, a);
    ReplayedRunBacks(m, b);
    ReplayedRunBacks(m, c);
    ThreeBack(m, ReplayedRun(a), ReplayedRun(b), ReplayedRun(c), "e");
    assert Assessments(m.runs) == [a, b, c];
    assert Elems(m.refs) == {"e"};
  }

  lemma ThreeBack(m: Candidate, x: E.EvidenceRequest, y: E.EvidenceRequest, z: E.EvidenceRequest, ref: Id)
    requires BacksRun(m, x) && BacksRun(m, y) && BacksRun(m, z)
    requires SupportingRefs(x) == [ref] && SupportingRefs(y) == [ref] && SupportingRefs(z) == [ref]
    ensures AllBack(m, [x, y, z]) && AllSupporting([x, y, z]) == {ref}
  {
    assert [x, y, z][..2] == [x, y] && [x, y][..1] == [x] && [x][..0] == [];
    assert AllBack(m, [x]) && AllBack(m, [x, y]);
    assert AllSupporting([x]) == {ref} && AllSupporting([x, y]) == {ref};
  }
}
