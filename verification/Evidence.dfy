// Claim-evidence assessment of brain/evidence.py.
module Evidence {
  import opened Foundation

  datatype Relation = Supports | Contradicts | Neutral
  datatype Strength = Weak | Moderate | Strong
  datatype Origin = Observed | Derived
  datatype Verdict = Supported | Contested | Refuted | Insufficient

  datatype Signal = Signal(
    evidenceId: Id, goalId: Id, claimId: Id, sourceId: Id, relation: Relation, strength: Strength, origin: Origin)

  datatype EvidenceRequest = EvidenceRequest(
    assessmentId: Id, goalId: Id, claimId: Id, agent: Agent, evidence: seq<Signal>)

  datatype Assessment = Assessment(
    assessmentId: Id, goalId: Id, claimId: Id, agent: Agent, verdict: Verdict,
    supporting: seq<Id>, contradicting: seq<Id>, ignored: seq<Id>)

  datatype EvidenceError = ConflictingEvidenceId

  // ---------- what a verdict means ----------

  function Rank(s: Strength): int {
    match s case Weak => 0 case Moderate => 1 case Strong => 2
  }

  // One side of a claim qualifies on one strong observation, or on moderate
  // observations from two different sources.
  predicate Qualifies(side: set<Signal>) {
    || (exists s :: s in side && s.origin.Observed? && s.strength.Strong?)
    || (exists s, t :: s in side && t in side && s.sourceId != t.sourceId
                       && s.origin.Observed? && t.origin.Observed? && s.strength.Moderate? && t.strength.Moderate?)
  }

  predicate InScope(r: EvidenceRequest, s: Signal) {
    s.goalId == r.goalId && s.claimId == r.claimId
  }

  function Side(r: EvidenceRequest, relation: Relation): set<Signal> {
    set s | s in r.evidence && InScope(r, s) && s.relation == relation
  }

  // Two records share an id but differ elsewhere, in scope or not.
  predicate Conflicting(evidence: seq<Signal>) {
    exists s, t :: s in evidence && t in evidence && s.evidenceId == t.evidenceId && s != t
  }

  function Combine(support: bool, contradiction: bool): Verdict {
    if support && contradiction then Contested
    else if support then Supported
    else if contradiction then Refuted
    else Insufficient
  }

  function VerdictOf(r: EvidenceRequest): Verdict {
    Combine(Qualifies(Side(r, Supports)), Qualifies(Side(r, Contradicts)))
  }

  // ---------- the reported references ----------

  predicate SeenId(evidence: seq<Signal>, id: Id) {
    exists s :: s in evidence && s.evidenceId == id
  }

  // First occurrences on one side, in order.
  function SideSignals(r: EvidenceRequest, evidence: seq<Signal>, relation: Relation): seq<Signal> {
    if evidence == [] then []
    else
      var n := |evidence| - 1;
      var s := evidence[n];
      SideSignals(r, evidence[..n], relation)
      + (if !SeenId(evidence[..n], s.evidenceId) && InScope(r, s) && s.relation == relation then [s] else [])
  }

  function Refs(signals: seq<Signal>): seq<Id> {
    seq(|signals|, i requires 0 <= i < |signals| => signals[i].evidenceId)
  }

  function IgnoredRefs(r: EvidenceRequest, evidence: seq<Signal>): seq<Id> {
    if evidence == [] then []
    else
      var n := |evidence| - 1;
      var s := evidence[n];
      var before := IgnoredRefs(r, evidence[..n]);
      if SeenId(evidence[..n], s.evidenceId) then (if s.evidenceId in before then before else before + [s.evidenceId])
      else if !InScope(r, s) || s.relation.Neutral? then before + [s.evidenceId]
      else before
  }

  function Assess(r: EvidenceRequest): Result<Assessment, EvidenceError> {
    if Conflicting(r.evidence) then Err(ConflictingEvidenceId)
    else Ok(Assessment(r.assessmentId, r.goalId, r.claimId, r.agent, VerdictOf(r),
                       Refs(SideSignals(r, r.evidence, Supports)),
                       Refs(SideSignals(r, r.evidence, Contradicts)),
                       IgnoredRefs(r, r.evidence)))
  }

  // ---------- the per-source fold ----------

  ghost predicate BestBySource(best: map<Id, Strength>, signals: seq<Signal>) {
    && (forall s :: s in signals && s.origin.Observed? ==>
          s.sourceId in best && Rank(s.strength) <= Rank(best[s.sourceId]))
    && (forall id :: id in best ==> ReachedBy(signals, id, best[id]))
  }

  ghost predicate ReachedBy(signals: seq<Signal>, id: Id, strength: Strength) {
    exists s :: s in signals && s.origin.Observed? && s.sourceId == id && s.strength == strength
  }

  function Moderates(best: map<Id, Strength>): set<Id> {
    set id | id in best && best[id].Moderate?
  }

  lemma BestQualifies(best: map<Id, Strength>, signals: seq<Signal>)
    requires BestBySource(best, signals)
    ensures Qualifies(Elems(signals)) <==> (exists id :: id in best && best[id].Strong?) || |Moderates(best)| >= 2
  {
    if exists id :: id in best && best[id].Strong? {
      var id :| id in best && best[id].Strong?;
      assert ReachedBy(signals, id, best[id]);
    } else if |Moderates(best)| >= 2 {
      var a, b := TwoMembers(Moderates(best));
      assert ReachedBy(signals, a, best[a]) && ReachedBy(signals, b, best[b]);
    } else if Qualifies(Elems(signals)) {
      QualifyingIsCounted(best, signals);
      assert false;
    }
  }

  lemma TwoMembers(s: set<Id>) returns (a: Id, b: Id)
    requires |s| >= 2
    ensures a in s && b in s && a != b
  {
    a :| a in s;
    var rest := s - {a};
    assert s == rest + {a};
    assert |rest| == |s| - 1;
    b :| b in rest;
  }

  lemma QualifyingIsCounted(best: map<Id, Strength>, signals: seq<Signal>)
    requires BestBySource(best, signals) && Qualifies(Elems(signals))
    ensures (exists id :: id in best && best[id].Strong?) || |Moderates(best)| >= 2
  {
    if exists s :: s in Elems(signals) && s.origin.Observed? && s.strength.Strong? {
      var s :| s in Elems(signals) && s.origin.Observed? && s.strength.Strong?;
      assert best[s.sourceId].Strong?;
    } else {
      var s, t :| s in Elems(signals) && t in Elems(signals) && s.sourceId != t.sourceId
        && s.origin.Observed? && t.origin.Observed? && s.strength.Moderate? && t.strength.Moderate?;
      if !best[s.sourceId].Strong? && !best[t.sourceId].Strong? {
        SubsetCard({s.sourceId, t.sourceId}, Moderates(best));
      }
    }
  }

  // The table after one more observation: the stronger of the two stays.
  function Improved(best: map<Id, Strength>, s: Signal): map<Id, Strength> {
    if s.origin.Observed? && (s.sourceId !in best || Rank(s.strength) > Rank(best[s.sourceId]))
    then best[s.sourceId := s.strength]
    else best
  }

  lemma BestAppend(best: map<Id, Strength>, signals: seq<Signal>, s: Signal)
    requires BestBySource(best, signals)
    ensures BestBySource(Improved(best, s), signals + [s])
  {
    var next := Improved(best, s);
    var longer := signals + [s];
    assert longer[|signals|] == s;
    forall id | id in next ensures ReachedBy(longer, id, next[id]) {
      if id in best && next[id] == best[id] {
        assert ReachedBy(signals, id, best[id]);
        var t :| t in signals && t.origin.Observed? && t.sourceId == id && t.strength == best[id];
        assert t in longer;
      } else {
        assert s in longer;
      }
    }
  }

  // `_side_qualifies`: strongest observation per source, then count sources.
  method SideQualifies(signals: seq<Signal>) returns (qualifies: bool)
    ensures qualifies <==> Qualifies(Elems(signals))
  {
    var best: map<Id, Strength> := map[];
    var i := 0;
    while i < |signals|
      invariant 0 <= i <= |signals|
      invariant BestBySource(best, signals[..i])
    {
      var s := signals[i];
      assert signals[..i + 1] == signals[..i] + [s];
      BestAppend(best, signals[..i], s);
      if s.origin.Observed? && (s.sourceId !in best || Rank(s.strength) > Rank(best[s.sourceId])) {
        best := best[s.sourceId := s.strength];
      }
      i := i + 1;
    }
    assert signals[..i] == signals;
    BestQualifies(best, signals);
    qualifies := (exists id :: id in best && best[id].Strong?) || |Moderates(best)| >= 2;
  }

  // ---------- the assessment loop ----------

  ghost predicate IdentityIndex(seen: map<Id, Signal>, evidence: seq<Signal>) {
    && (forall id :: id in seen <==> SeenId(evidence, id))
    && (forall s :: s in evidence ==> s.evidenceId in seen && seen[s.evidenceId] == s)
  }

  lemma ConflictStays(evidence: seq<Signal>, s: Signal, t: Signal)
    requires s in evidence && t in evidence && s.evidenceId == t.evidenceId && s != t
    ensures Conflicting(evidence)
  {
  }

  lemma IdentityAppend(seen: map<Id, Signal>, evidence: seq<Signal>, s: Signal)
    requires IdentityIndex(seen, evidence)
    requires s.evidenceId in seen ==> seen[s.evidenceId] == s
    ensures IdentityIndex(seen[s.evidenceId := s], evidence + [s])
    ensures s.evidenceId in seen ==> seen[s.evidenceId := s] == seen
  {
    var longer := evidence + [s];
    assert longer[|evidence|] == s;
    forall id ensures SeenId(longer, id) <==> SeenId(evidence, id) || id == s.evidenceId {
      if SeenId(evidence, id) {
        var t :| t in evidence && t.evidenceId == id;
        assert t in longer;
      }
      if id == s.evidenceId { assert s in longer; }
    }
  }

  lemma RefsAppend(signals: seq<Signal>, s: Signal)
    ensures Refs(signals + [s]) == Refs(signals) + [s.evidenceId]
  {
  }

  // Without conflicts the first occurrences are the whole side.
  lemma {:induction false} SideSignalsAreSide(r: EvidenceRequest, evidence: seq<Signal>, relation: Relation)
    requires !Conflicting(evidence)
    ensures Elems(SideSignals(r, evidence, relation))
         == set s | s in evidence && InScope(r, s) && s.relation == relation
  {
    if evidence != [] {
      var n := |evidence| - 1;
      var s := evidence[n];
      assert evidence == evidence[..n] + [s];
      if Conflicting(evidence[..n]) {
        var a, b :| a in evidence[..n] && b in evidence[..n] && a.evidenceId == b.evidenceId && a != b;
        ConflictStays(evidence, a, b);
      }
      SideSignalsAreSide(r, evidence[..n], relation);
      if SeenId(evidence[..n], s.evidenceId) {
        var t :| t in evidence[..n] && t.evidenceId == s.evidenceId;
        if t != s { ConflictStays(evidence, s, t); }
      }
      var before := SideSignals(r, evidence[..n], relation);
      ElemsAppend(before, [s]);
      ElemsAppend(before, []);
    }
  }

  lemma SideStep(r: EvidenceRequest, seen: map<Id, Signal>, i: nat, relation: Relation)
    requires i < |r.evidence| && IdentityIndex(seen, r.evidence[..i])
    ensures var s, before := r.evidence[i], SideSignals(r, r.evidence[..i], relation);
            SideSignals(r, r.evidence[..i + 1], relation) ==
              if s.evidenceId !in seen && InScope(r, s) && s.relation == relation then before + [s] else before
  {
    assert r.evidence[..i + 1][..i] == r.evidence[..i];
  }

  lemma IgnoredStep(r: EvidenceRequest, seen: map<Id, Signal>, i: nat)
    requires i < |r.evidence| && IdentityIndex(seen, r.evidence[..i])
    ensures var s, before := r.evidence[i], IgnoredRefs(r, r.evidence[..i]);
            IgnoredRefs(r, r.evidence[..i + 1]) ==
              if s.evidenceId in seen then (if s.evidenceId in before then before else before + [s.evidenceId])
              else if !InScope(r, s) || s.relation.Neutral? then before + [s.evidenceId]
              else before
  {
    assert r.evidence[..i + 1][..i] == r.evidence[..i];
  }

  lemma ClashIsConflict(r: EvidenceRequest, seen: map<Id, Signal>, i: nat)
    requires i < |r.evidence| && IdentityIndex(seen, r.evidence[..i])
    requires var s := r.evidence[i]; s.evidenceId in seen && seen[s.evidenceId] != s
    ensures Conflicting(r.evidence)
  {
    var s := r.evidence[i];
    SeenSignal(seen, r.evidence[..i], s.evidenceId);
    ConflictStays(r.evidence, seen[s.evidenceId], s);
  }

  lemma IndexedHasNoConflict(seen: map<Id, Signal>, evidence: seq<Signal>)
    requires IdentityIndex(seen, evidence)
    ensures !Conflicting(evidence)
  {
  }

  // What the loop holds after the first i records.
  ghost predicate Collected(r: EvidenceRequest, i: nat, seen: map<Id, Signal>, support: seq<Signal>,
                            contradict: seq<Signal>, ignored: seq<Id>)
    requires i <= |r.evidence|
  {
    && IdentityIndex(seen, r.evidence[..i])
    && support == SideSignals(r, r.evidence[..i], Supports)
    && contradict == SideSignals(r, r.evidence[..i], Contradicts)
    && ignored == IgnoredRefs(r, r.evidence[..i])
  }

  lemma IndexStep(evidence: seq<Signal>, seen: map<Id, Signal>, i: nat)
    requires i < |evidence| && IdentityIndex(seen, evidence[..i])
    requires evidence[i].evidenceId in seen ==> seen[evidence[i].evidenceId] == evidence[i]
    ensures IdentityIndex(seen[evidence[i].evidenceId := evidence[i]], evidence[..i + 1])
  {
    assert evidence[..i + 1] == evidence[..i] + [evidence[i]];
    IdentityAppend(seen, evidence[..i], evidence[i]);
  }

  lemma CollectStep(r: EvidenceRequest, i: nat, seen: map<Id, Signal>, support: seq<Signal>,
                    contradict: seq<Signal>, ignored: seq<Id>)
    requires i < |r.evidence| && Collected(r, i, seen, support, contradict, ignored)
    ensures var s := r.evidence[i];
            var isNew, skip := s.evidenceId !in seen, s.relation.Neutral? || !InScope(r, s);
            if !isNew && seen[s.evidenceId] != s then Conflicting(r.evidence)
            else Collected(r, i + 1, seen[s.evidenceId := s],
                           if isNew && !skip && s.relation.Supports? then support + [s] else support,
                           if isNew && !skip && s.relation.Contradicts? then contradict + [s] else contradict,
                           if (isNew && skip) || (!isNew && s.evidenceId !in ignored) then ignored + [s.evidenceId]
                           else ignored)
  {
    var s := r.evidence[i];
    if s.evidenceId in seen && seen[s.evidenceId] != s {
      ClashIsConflict(r, seen, i);
    } else {
      SideStep(r, seen, i, Supports);
      SideStep(r, seen, i, Contradicts);
      IgnoredStep(r, seen, i);
      IndexStep(r.evidence, seen, i);
    }
  }

  // The collecting loop of `assess_claim_evidence`.
  method ScanEvidence(r: EvidenceRequest)
    returns (ok: bool, support: seq<Signal>, contradict: seq<Signal>, ignoredRefs: seq<Id>)
    ensures ok <==> !Conflicting(r.evidence)
    ensures ok ==>
      support == SideSignals(r, r.evidence, Supports) && contradict == SideSignals(r, r.evidence, Contradicts)
    ensures ok ==> ignoredRefs == IgnoredRefs(r, r.evidence)
  {
    support, contradict, ignoredRefs := [], [], [];
    var seen: map<Id, Signal> := map[];
    var i := 0;
    assert Collected(r, 0, seen, support, contradict, ignoredRefs);
    while i < |r.evidence|
      invariant 0 <= i <= |r.evidence|
      invariant Collected(r, i, seen, support, contradict, ignoredRefs)
    {
      var s := r.evidence[i];
      var id := s.evidenceId;
      CollectStep(r, i, seen, support, contradict, ignoredRefs);
      if id in seen && seen[id] != s {
        return false, support, contradict, ignoredRefs;
      }
      if id in seen {
        if id !in ignoredRefs {
          ignoredRefs := ignoredRefs + [id];
        }
      } else if !InScope(r, s) {
        ignoredRefs := ignoredRefs + [id];
      } else if s.relation.Supports? {
        support := support + [s];
      } else if s.relation.Contradicts? {
        contradict := contradict + [s];
      } else {
        ignoredRefs := ignoredRefs + [id];
      }
      seen := seen[id := s];
      i := i + 1;
    }
    assert r.evidence[..i] == r.evidence;
    IndexedHasNoConflict(seen, r.evidence);
    ok := true;
  }

  // What each verdict says about the two sides.
  predicate Says(v: Verdict, support: bool, contradiction: bool) {
    && (v == Contested <==> support && contradiction)
    && (v == Supported <==> support && !contradiction)
    && (v == Refuted <==> !support && contradiction)
    && (v == Insufficient <==> !support && !contradiction)
  }

  lemma VerdictMeaning(r: EvidenceRequest)
    ensures Says(VerdictOf(r), Qualifies(Side(r, Supports)), Qualifies(Side(r, Contradicts)))
    ensures Assess(r).Ok? ==> Assess(r).value.verdict == VerdictOf(r)
  {
  }

  // `assess_claim_evidence`.
  // An error exactly on a clash; otherwise the verdict says which sides qualify.
  method AssessClaimEvidence(r: EvidenceRequest) returns (result: Result<Assessment, EvidenceError>)
    ensures result.Err? <==> Conflicting(r.evidence)
    ensures result.Ok? ==> Says(result.value.verdict, Qualifies(Side(r, Supports)), Qualifies(Side(r, Contradicts)))
    ensures result == Assess(r)
  {
    var ok, support, contradict, ignoredRefs := ScanEvidence(r);
    if !ok {
      return Err(ConflictingEvidenceId);
    }
    SideSignalsAreSide(r, r.evidence, Supports);
    SideSignalsAreSide(r, r.evidence, Contradicts);
    var supportQualifies := SideQualifies(support);
    var contradictionQualifies := SideQualifies(contradict);
    result := Ok(Assessment(r.assessmentId, r.goalId, r.claimId, r.agent,
                            Combine(supportQualifies, contradictionQualifies),
                            Refs(support), Refs(contradict), ignoredRefs));
  }

  lemma SeenSignal(seen: map<Id, Signal>, evidence: seq<Signal>, id: Id)
    requires IdentityIndex(seen, evidence) && id in seen
    ensures seen[id] in evidence && seen[id].evidenceId == id
  {
    var t :| t in evidence && t.evidenceId == id;
    assert seen[id] == t;
  }

  // ---------- order, replay and source independence ----------

  lemma RefsMembers(signals: seq<Signal>, id: Id)
    ensures id in Refs(signals) <==> exists s :: s in signals && s.evidenceId == id
  {
    if exists s :: s in signals && s.evidenceId == id {
      var s :| s in signals && s.evidenceId == id;
      var k :| 0 <= k < |signals| && signals[k] == s;
      assert Refs(signals)[k] == id;
    }
  }

  // What the two reference lists contain, independently of order and replay.
  lemma RefsMeaning(r: EvidenceRequest, relation: Relation, id: Id)
    requires !Conflicting(r.evidence)
    ensures id in Refs(SideSignals(r, r.evidence, relation)) <==>
      exists s :: s in Side(r, relation) && s.evidenceId == id
  {
    SideSignalsAreSide(r, r.evidence, relation);
    RefsMembers(SideSignals(r, r.evidence, relation), id);
    forall s ensures s in SideSignals(r, r.evidence, relation) <==> s in Side(r, relation) {
      assert s in Elems(SideSignals(r, r.evidence, relation)) <==> s in Side(r, relation);
    }
  }

  // Where the id first occurs, or |evidence| if it does not.
  function FirstAt(evidence: seq<Signal>, id: Id): (i: nat)
    ensures SeenId(evidence, id) <==> i < |evidence|
  {
    var n := |evidence| - 1;
    if n < 0 then 0
    else
      var i := FirstAt(evidence[..n], id);
      assert evidence == evidence[..n] + [evidence[n]];
      if i < n || evidence[n].evidenceId == id then i else n + 1
  }

  predicate InFirstOrder(evidence: seq<Signal>, refs: seq<Id>) {
    && (forall j :: 0 <= j < |refs| ==> FirstAt(evidence, refs[j]) < |evidence|)
    && (forall i, j :: 0 <= i < j < |refs| ==> FirstAt(evidence, refs[i]) < FirstAt(evidence, refs[j]))
  }

  // The cited records are listed in the order of their first occurrence.
  lemma {:induction false} RefsInOrder(r: EvidenceRequest, evidence: seq<Signal>, relation: Relation)
    ensures InFirstOrder(evidence, Refs(SideSignals(r, evidence, relation)))
  {
    if evidence != [] {
      var n := |evidence| - 1;
      var before := SideSignals(r, evidence[..n], relation);
      RefsInOrder(r, evidence[..n], relation);
      RefsAppend(before, evidence[n]);
      assert before + [] == before;
      assert InFirstOrder(evidence, Refs(before));
    }
  }

  // Whether the record at i is set aside: it is a replay, is about another
  // goal or claim, or takes no side.
  predicate SetAside(r: EvidenceRequest, evidence: seq<Signal>, i: nat)
    requires i < |evidence|
  {
    || FirstAt(evidence, evidence[i].evidenceId) < i
    || evidence[i].goalId != r.goalId || evidence[i].claimId != r.claimId || evidence[i].relation.Neutral?
  }

  ghost predicate SomeSetAside(r: EvidenceRequest, evidence: seq<Signal>, id: Id) {
    exists i :: 0 <= i < |evidence| && evidence[i].evidenceId == id && SetAside(r, evidence, i)
  }

  lemma SetAsideStep(r: EvidenceRequest, evidence: seq<Signal>, id: Id)
    requires evidence != []
    ensures var n := |evidence| - 1; var s := evidence[n];
      SomeSetAside(r, evidence, id) <==>
      || SomeSetAside(r, evidence[..n], id)
      || (s.evidenceId == id && (SeenId(evidence[..n], id) || !InScope(r, s) || s.relation.Neutral?))
  {
    var n := |evidence| - 1;
    forall i | 0 <= i < n ensures SetAside(r, evidence, i) <==> SetAside(r, evidence[..n], i) { }
    if SomeSetAside(r, evidence[..n], id) {
      var i :| 0 <= i < n && evidence[..n][i].evidenceId == id && SetAside(r, evidence[..n], i);
      assert SetAside(r, evidence, i);
    }
    if evidence[n].evidenceId == id && SetAside(r, evidence, n) {
      assert SomeSetAside(r, evidence, id);
    }
  }

  lemma {:induction false} IgnoredMeaning(r: EvidenceRequest, evidence: seq<Signal>, id: Id)
    ensures id in IgnoredRefs(r, evidence) <==> SomeSetAside(r, evidence, id)
  {
    if evidence != [] {
      IgnoredMeaning(r, evidence[..|evidence| - 1], id);
      SetAsideStep(r, evidence, id);
    }
  }

  // An assessment, read off the submitted records alone: whose it is, what it
  // cites on each side and in which order, and what it sets aside.
  lemma AssessmentMeaning(r: EvidenceRequest, id: Id)
    requires Assess(r).Ok?
    ensures var a := Assess(r).value;
      && a.assessmentId == r.assessmentId && a.goalId == r.goalId && a.claimId == r.claimId && a.agent == r.agent
      && InFirstOrder(r.evidence, a.supporting) && InFirstOrder(r.evidence, a.contradicting)
      && (id in a.supporting <==> Cites(r, Supports, id))
      && (id in a.contradicting <==> Cites(r, Contradicts, id))
      && (id in a.ignored <==> SomeSetAside(r, r.evidence, id))
  {
    RefsInOrder(r, r.evidence, Supports);
    RefsInOrder(r, r.evidence, Contradicts);
    RefsMeaning(r, Supports, id);
    RefsMeaning(r, Contradicts, id);
    SideMeaning(r, Supports, id);
    SideMeaning(r, Contradicts, id);
    IgnoredMeaning(r, r.evidence, id);
  }

  // Some record of this goal and claim takes the side.
  ghost predicate Cites(r: EvidenceRequest, relation: Relation, id: Id) {
    exists s :: s in r.evidence && s.evidenceId == id && s.relation == relation
                && s.goalId == r.goalId && s.claimId == r.claimId
  }

  lemma SideMeaning(r: EvidenceRequest, relation: Relation, id: Id)
    ensures Cites(r, relation, id) <==> exists s :: s in Side(r, relation) && s.evidenceId == id
  {
    if Cites(r, relation, id) {
      var s :| s in r.evidence && s.evidenceId == id && s.relation == relation && s.goalId == r.goalId
        && s.claimId == r.claimId;
      assert s in Side(r, relation);
    }
  }

  // Only the set of submitted records matters: permuting them, or submitting
  // some of them again, changes neither failure, verdict nor cited evidence.
  lemma OrderAndReplayInvariance(r: EvidenceRequest, evidence: seq<Signal>)
    requires Elems(evidence) == Elems(r.evidence)
    ensures var q := r.(evidence := evidence);
            && (Assess(q).Err? <==> Assess(r).Err?)
            && (Assess(r).Ok? ==>
                && Assess(q).value.verdict == Assess(r).value.verdict
                && Elems(Assess(q).value.supporting) == Elems(Assess(r).value.supporting)
                && Elems(Assess(q).value.contradicting) == Elems(Assess(r).value.contradicting))
  {
    var q := r.(evidence := evidence);
    assert forall s :: s in evidence <==> s in r.evidence by {
      assert forall s :: s in evidence <==> s in Elems(evidence);
      assert forall s :: s in r.evidence <==> s in Elems(r.evidence);
    }
    assert Side(q, Supports) == Side(r, Supports) && Side(q, Contradicts) == Side(r, Contradicts);
    if !Conflicting(r.evidence) {
      forall id, relation
        ensures id in Refs(SideSignals(q, evidence, relation)) <==> id in Refs(SideSignals(r, r.evidence, relation))
      {
        RefsMeaning(q, relation, id);
        RefsMeaning(r, relation, id);
        assert Side(q, relation) == Side(r, relation);
      }
    }
  }

  // The cited references carry no duplicates, and on a positive side they are
  // never empty.
  lemma {:induction false} SideRefsDistinct(r: EvidenceRequest, evidence: seq<Signal>, relation: Relation)
    ensures Distinct(Refs(SideSignals(r, evidence, relation)))
    ensures forall s :: s in SideSignals(r, evidence, relation) ==>
      s in evidence && InScope(r, s) && s.relation == relation
  {
    if evidence != [] {
      var n := |evidence| - 1;
      var s := evidence[n];
      SideRefsDistinct(r, evidence[..n], relation);
      var before := SideSignals(r, evidence[..n], relation);
      if !SeenId(evidence[..n], s.evidenceId) {
        RefsMembers(before, s.evidenceId);
        RefsAppend(before, s);
        assert s.evidenceId !in Refs(before);
        DistinctAppend(Refs(before), s.evidenceId);
      }
      assert before + [] == before;
      forall t | t in evidence[..n] ensures t in evidence { }
    }
  }

  lemma SupportedHasSources(r: EvidenceRequest)
    requires Assess(r).Ok? && Assess(r).value.verdict == Supported
    ensures Assess(r).value.supporting != []
    ensures exists s :: s in r.evidence && s.origin.Observed? && s.relation.Supports? && InScope(r, s)
  {
    var s :| s in Side(r, Supports) && s.origin.Observed?;
    RefsMeaning(r, Supports, s.evidenceId);
  }

  // The source already has an at least as strong in-scope observation on the
  // same side of the claim.
  predicate Outranked(r: EvidenceRequest, s: Signal) {
    exists t :: t in r.evidence && InScope(r, t) && t.relation == s.relation && t.origin.Observed?
                && t.sourceId == s.sourceId && Rank(t.strength) >= Rank(s.strength)
  }

  lemma QualifiesWithout(side: set<Signal>, s: Signal)
    requires
      || s.origin.Derived?
      || exists t :: t in side && t.origin.Observed? && t.sourceId == s.sourceId && Rank(t.strength) >= Rank(s.strength)
    ensures Qualifies(side + {s}) <==> Qualifies(side)
  {
    if s.origin.Observed? {
      var t :| t in side && t.origin.Observed? && t.sourceId == s.sourceId && Rank(t.strength) >= Rank(s.strength);
      if Qualifies(side + {s}) {
        if exists u :: u in side + {s} && u.origin.Observed? && u.strength.Strong? {
          var u :| u in side + {s} && u.origin.Observed? && u.strength.Strong?;
          var u' := if u == s then t else u;
          assert u' in side && u'.strength.Strong?;
        } else {
          var a, b :| a in side + {s} && b in side + {s} && a.sourceId != b.sourceId
            && a.origin.Observed? && b.origin.Observed? && a.strength.Moderate? && b.strength.Moderate?;
          var a', b' := if a == s then t else a, if b == s then t else b;
          assert a' in side && b' in side && a'.sourceId != b'.sourceId;
        }
      }
    }
  }

  // Nothing the request does not already say as strongly, or nothing that counts.
  predicate Ignorable(r: EvidenceRequest, s: Signal) {
    Outranked(r, s) || s.origin.Derived? || s.relation.Neutral? || !InScope(r, s)
  }

  lemma RepeatedSourceInvariance(r: EvidenceRequest, s: Signal)
    requires Ignorable(r, s)
    ensures VerdictOf(r.(evidence := r.evidence + [s])) == VerdictOf(r)
  {
    var q := r.(evidence := r.evidence + [s]);
    forall relation | relation != Neutral ensures Qualifies(Side(q, relation)) <==> Qualifies(Side(r, relation)) {
      assert q.evidence[|r.evidence|] == s;
      assert forall t :: t in q.evidence <==> t in r.evidence || t == s;
      if InScope(r, s) && s.relation == relation {
        assert Side(q, relation) == Side(r, relation) + {s};
        if s.origin.Observed? {
          var t :| t in r.evidence && InScope(r, t) && t.relation == s.relation && t.origin.Observed?
            && t.sourceId == s.sourceId && Rank(t.strength) >= Rank(s.strength);
          assert t in Side(r, relation);
        }
        QualifiesWithout(Side(r, relation), s);
      } else {
        assert Side(q, relation) == Side(r, relation);
      }
    }
  }

  // One source cannot manufacture corroboration: however many signals it adds,
  // they change the verdict only by being stronger than what it already said.
  // Derived, neutral and out-of-scope signals never change it.
  lemma {:induction false} RepeatedSourcesInvariance(r: EvidenceRequest, more: seq<Signal>)
    requires forall s :: s in more ==> Ignorable(r, s)
    ensures VerdictOf(r.(evidence := r.evidence + more)) == VerdictOf(r)
  {
    if more == [] {
      assert r.evidence + more == r.evidence;
    } else {
      var before, last := more[..|more| - 1], more[|more| - 1];
      assert more == before + [last];
      RepeatedSourcesInvariance(r, before);
      OneMoreIgnorable(r, before, last);
    }
  }

  lemma OneMoreIgnorable(r: EvidenceRequest, more: seq<Signal>, s: Signal)
    requires Ignorable(r, s)
    ensures VerdictOf(r.(evidence := r.evidence + (more + [s]))) == VerdictOf(r.(evidence := r.evidence + more))
  {
    IgnorableStays(r, more, s);
    RepeatedSourceInvariance(r.(evidence := r.evidence + more), s);
    assert r.evidence + (more + [s]) == (r.evidence + more) + [s];
  }

  lemma IgnorableStays(r: EvidenceRequest, more: seq<Signal>, s: Signal)
    requires Ignorable(r, s)
    ensures Ignorable(r.(evidence := r.evidence + more), s)
  {
  }

  // Each source's strongest observations on a side.
  function Strongest(side: set<Signal>): set<Signal> {
    set s | s in side && s.origin.Observed?
            && forall t :: t in side && t.origin.Observed? && t.sourceId == s.sourceId ==>
                 Rank(t.strength) <= Rank(s.strength)
  }

  // A side qualifies on those alone.
  lemma OnlyTheStrongestMatter(side: set<Signal>)
    ensures Qualifies(Strongest(side)) <==> Qualifies(side)
  {
    if exists s :: s in side && s.origin.Observed? && s.strength.Strong? {
      var s :| s in side && s.origin.Observed? && s.strength.Strong?;
      assert s in Strongest(side);
    } else if Qualifies(side) {
      var s, t :| s in side && t in side && s.sourceId != t.sourceId
        && s.origin.Observed? && t.origin.Observed? && s.strength.Moderate? && t.strength.Moderate?;
      assert s in Strongest(side) && t in Strongest(side);
    }
  }

  // ---------- the two sides exchanged ----------

  function Opposite(relation: Relation): Relation {
    match relation case Supports => Contradicts case Contradicts => Supports case Neutral => Neutral
  }

  function Flip(s: Signal): Signal { s.(relation := Opposite(s.relation)) }

  function Flipped(evidence: seq<Signal>): (r: seq<Signal>)
    ensures |r| == |evidence|
  {
    seq(|evidence|, i requires 0 <= i < |evidence| => Flip(evidence[i]))
  }

  function Mirror(r: EvidenceRequest): EvidenceRequest { r.(evidence := Flipped(r.evidence)) }

  lemma FlippedHolds(evidence: seq<Signal>, s: Signal)
    ensures s in Flipped(evidence) <==> Flip(s) in evidence
  {
    if Flip(s) in evidence {
      var i :| 0 <= i < |evidence| && evidence[i] == Flip(s);
      assert Flipped(evidence)[i] == s;
    }
  }

  lemma MirrorSide(r: EvidenceRequest, relation: Relation, s: Signal)
    ensures s in Side(Mirror(r), relation) <==> Flip(s) in Side(r, Opposite(relation))
  {
    FlippedHolds(r.evidence, s);
  }

  lemma MirrorQualifies(r: EvidenceRequest, relation: Relation)
    ensures Qualifies(Side(r, Opposite(relation))) ==> Qualifies(Side(Mirror(r), relation))
  {
    var side, other := Side(r, Opposite(relation)), Side(Mirror(r), relation);
    forall s | s in side ensures Flip(s) in other {
      MirrorSide(r, relation, Flip(s));
    }
    if exists s :: s in side && s.origin.Observed? && s.strength.Strong? {
      var s :| s in side && s.origin.Observed? && s.strength.Strong?;
      assert Flip(s) in other;
    } else if Qualifies(side) {
      var s, t :| s in side && t in side && s.sourceId != t.sourceId
        && s.origin.Observed? && t.origin.Observed? && s.strength.Moderate? && t.strength.Moderate?;
      assert Flip(s) in other && Flip(t) in other;
    }
  }

  lemma MirrorTwice(r: EvidenceRequest)
    ensures Mirror(Mirror(r)) == r
  {
    assert forall i :: 0 <= i < |r.evidence| ==> Flip(Flip(r.evidence[i])) == r.evidence[i];
    assert Flipped(Flipped(r.evidence)) == r.evidence;
  }

  lemma MirrorConflicts(r: EvidenceRequest)
    ensures Conflicting(r.evidence) ==> Conflicting(Mirror(r).evidence)
  {
    if Conflicting(r.evidence) {
      var s, t :| s in r.evidence && t in r.evidence && s.evidenceId == t.evidenceId && s != t;
      FlippedHolds(r.evidence, Flip(s));
      FlippedHolds(r.evidence, Flip(t));
      assert Flip(Flip(s)) == s && Flip(Flip(t)) == t;
    }
  }

  lemma {:induction false} MirrorRefs(r: EvidenceRequest, evidence: seq<Signal>, relation: Relation)
    ensures Refs(SideSignals(Mirror(r), Flipped(evidence), relation))
         == Refs(SideSignals(r, evidence, Opposite(relation)))
  {
    if evidence != [] {
      var before, s := evidence[..|evidence| - 1], evidence[|evidence| - 1];
      MirrorRefs(r, before, relation);
      assert Flipped(evidence)[..|evidence| - 1] == Flipped(before);
      FlippedSeen(before, s.evidenceId);
      RefsAppend(SideSignals(Mirror(r), Flipped(before), relation), Flip(s));
      RefsAppend(SideSignals(r, before, Opposite(relation)), s);
      NothingAdded(SideSignals(Mirror(r), Flipped(before), relation));
      NothingAdded(SideSignals(r, before, Opposite(relation)));
    }
  }

  lemma NothingAdded(signals: seq<Signal>)
    ensures signals + [] == signals
  {
  }

  lemma FlippedSeen(evidence: seq<Signal>, id: Id)
    ensures SeenId(Flipped(evidence), id) <==> SeenId(evidence, id)
  {
    if SeenId(evidence, id) {
      var s :| s in evidence && s.evidenceId == id;
      FlippedHolds(evidence, Flip(s));
      assert Flip(Flip(s)) == s;
    }
    if SeenId(Flipped(evidence), id) {
      var s :| s in Flipped(evidence) && s.evidenceId == id;
      FlippedHolds(evidence, s);
    }
  }

  function MirrorVerdict(v: Verdict): Verdict {
    match v case Supported => Refuted case Refuted => Supported case Contested => Contested
    case Insufficient => Insufficient
  }

  lemma MirrorVerdictOf(r: EvidenceRequest)
    ensures VerdictOf(Mirror(r)) == MirrorVerdict(VerdictOf(r))
  {
    MirrorTwice(r);
    MirrorQualifies(r, Supports);
    MirrorQualifies(r, Contradicts);
    MirrorQualifies(Mirror(r), Supports);
    MirrorQualifies(Mirror(r), Contradicts);
  }

  // Exchanging support and contradiction in every record exchanges SUPPORTED
  // with REFUTED and the two lists of references, and nothing else.
  lemma MirrorLaw(r: EvidenceRequest)
    ensures Assess(Mirror(r)).Ok? <==> Assess(r).Ok?
    ensures Assess(r).Ok? ==>
      && Assess(Mirror(r)).value.verdict == MirrorVerdict(Assess(r).value.verdict)
      && Assess(Mirror(r)).value.supporting == Assess(r).value.contradicting
      && Assess(Mirror(r)).value.contradicting == Assess(r).value.supporting
  {
    MirrorTwice(r);
    MirrorConflicts(r);
    MirrorConflicts(Mirror(r));
    MirrorVerdictOf(r);
    MirrorRefs(r, r.evidence, Supports);
    MirrorRefs(r, r.evidence, Contradicts);
  }

  // ---------- a single strong record ----------

  lemma OneSignalVerdict(q: EvidenceRequest, s: Signal)
    requires q.evidence == [s] && InScope(q, s)
    requires s.relation.Supports? && s.strength.Strong? && s.origin.Observed?
    ensures !Conflicting(q.evidence) && VerdictOf(q) == Supported
  {
    assert s in Side(q, Supports);
    assert Side(q, Contradicts) == {};
  }

  lemma OneSignalRefs(q: EvidenceRequest, s: Signal)
    requires q.evidence == [s] && InScope(q, s) && s.relation.Supports?
    ensures Refs(SideSignals(q, q.evidence, Supports)) == [s.evidenceId]
  {
    assert q.evidence[..0] == [];
    assert SideSignals(q, q.evidence, Supports) == [s];
  }
}
