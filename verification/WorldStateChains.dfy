// Chains of world states, each built on the one before it.
module WorldStateChains {
  import opened Foundation
  import E = Evidence
  import opened WorldState

  // Building rs[i] returned ss[i], from the snapshot before it.
  predicate Link(rs: seq<Request>, ss: seq<Snapshot>, i: nat)
    requires i < |rs| == |ss|
  {
    Build(rs[i]) == Ok(ss[i]) && (i > 0 ==> rs[i].previousState == Some(ss[i - 1]))
  }

  predicate IsChain(rs: seq<Request>, ss: seq<Snapshot>) {
    |rs| == |ss| && forall i {:trigger Link(rs, ss, i)} :: 0 <= i < |rs| ==> Link(rs, ss, i)
  }

  // The first request had no previous state.
  predicate FromScratch(rs: seq<Request>) { |rs| > 0 ==> rs[0].previousState.None? }

  // What one accepted request does, by proposition id: the verdicts it brings
  // in and the beliefs that result.
  datatype Round = Round(snapshotId: Id, ids: set<Id>, verdicts: map<Id, BeliefStatus>, beliefs: map<Id, Belief>)

  function Verdicts(r: Request): map<Id, BeliefStatus> {
    var evidence := EvidenceByClaim(r.evidenceRequests);
    map id | id in evidence :: StatusForVerdict(E.VerdictOf(evidence[id]))
  }

  function RoundOf(r: Request, s: Snapshot): Round {
    Round(r.snapshotId, Elems(PropositionIds(r.propositions)), Verdicts(r), BeliefsById(s.beliefs))
  }

  function Rounds(rs: seq<Request>, ss: seq<Snapshot>): (t: seq<Round>)
    requires |rs| == |ss|
    ensures |t| == |rs|
  {
    seq(|rs|, i requires 0 <= i < |rs| => RoundOf(rs[i], ss[i]))
  }

  // A revision whose id starts with its snapshot, one of those given, and its proposition.
  ghost predicate NamedFor(rev: Revision, snapshotIds: set<Id>, id: Id) {
    rev.snapshotId in snapshotIds && exists tag :: rev.revisionId == RevisionId(rev.snapshotId, id, tag)
  }

  // A belief is carried forward, introduced as unknown, or revised.
  ghost predicate BeliefStep(snapshotId: Id, id: Id, prev: Option<Belief>, verdict: Option<BeliefStatus>, b: Belief) {
    if verdict.None? && prev.Some? then b == prev.value
    else
      && b.status == (match verdict case Some(v) => v case None => Unknown)
      && |b.revisions| == |History(prev)| + 1
      && b.revisions[..|History(prev)|] == History(prev)
      && NamedFor(b.revisions[|History(prev)|], {snapshotId}, id)
  }

  ghost predicate RoundStep(prev: map<Id, Belief>, t: Round) {
    && t.beliefs.Keys == t.ids && prev.Keys <= t.ids && t.verdicts.Keys <= t.ids
    && forall id :: id in t.beliefs ==>
         BeliefStep(t.snapshotId, id, Lookup(prev, id), Lookup(t.verdicts, id), t.beliefs[id])
  }

  ghost predicate RoundsOk(ts: seq<Round>) {
    |ts| == 0 || (RoundsOk(ts[..|ts| - 1]) && RoundStep(Before(ts), ts[|ts| - 1]))
  }

  function Before(ts: seq<Round>): map<Id, Belief>
    requires |ts| > 0
  {
    if |ts| == 1 then map[] else ts[|ts| - 2].beliefs
  }

  // ----- From requests to rounds -----

  lemma BeliefForStep(snapshotId: Id, p: Proposition, prev: Option<Belief>, er: Option<E.EvidenceRequest>)
    requires BeliefFor(snapshotId, p, prev, er).Ok?
    ensures BeliefStep(snapshotId, p.id, prev,
                       match er case Some(e) => Some(StatusForVerdict(E.VerdictOf(e))) case None => None,
                       BeliefFor(snapshotId, p, prev, er).value)
  {
    var b := BeliefFor(snapshotId, p, prev, er).value;
    if er.None? && prev.None? {
      assert b.revisions[0].revisionId == RevisionId(snapshotId, p.id, "unknown");
    } else if er.Some? {
      assert b.revisions[|History(prev)|].revisionId
          == RevisionId(snapshotId, p.id, E.Assess(er.value).value.assessmentId);
    }
  }

  lemma PreviousIdsStay(r: Request, id: Id)
    requires RequestError(r).None? && id in BeliefsById(PreviousBeliefs(r))
    ensures id in PropositionIds(r.propositions)
  {
    var bs := PreviousBeliefs(r);
    BeliefsByIdAt(bs, id);
    AcceptedKeepsPropositions(r);
    var b := BeliefsById(bs)[id];
    var j :| 0 <= j < |r.propositions| && r.propositions[j] == b.proposition;
    assert PropositionIds(r.propositions)[j] == id;
  }

  lemma BuiltStep(r: Request, i: nat)
    requires Build(r).Ok? && i < |r.propositions|
    ensures var id, beliefs := r.propositions[i].id, BeliefsById(Build(r).value.beliefs);
      id in beliefs && BeliefStep(r.snapshotId, id, PreviousBelief(r, id), Lookup(Verdicts(r), id), beliefs[id])
  {
    var p := r.propositions[i];
    BuiltBelief(r, p);
    BeliefForStep(r.snapshotId, p, PreviousBelief(r, p.id), EvidenceFor(r, p.id));
  }

  lemma BuildIsRound(r: Request)
    requires Build(r).Ok?
    ensures RoundStep(BeliefsById(PreviousBeliefs(r)), RoundOf(r, Build(r).value))
  {
    var s := Build(r).value;
    var t := RoundOf(r, s);
    BuildIsValid(r);
    forall id ensures id in t.beliefs <==> id in t.ids {
      BeliefsByIdAt(s.beliefs, id);
    }
    forall id | id in BeliefsById(PreviousBeliefs(r)) ensures id in t.ids {
      PreviousIdsStay(r, id);
    }
    forall id | id in t.verdicts ensures id in t.ids {
      EvidenceIsKnown(r, r.evidenceRequests, id);
    }
    forall id | id in t.beliefs
      ensures BeliefStep(t.snapshotId, id, PreviousBelief(r, id), Lookup(t.verdicts, id), t.beliefs[id])
    {
      var i :| 0 <= i < |r.propositions| && PropositionIds(r.propositions)[i] == id;
      BuiltStep(r, i);
    }
  }

  lemma LinkIsRound(rs: seq<Request>, ss: seq<Snapshot>, i: nat)
    requires IsChain(rs, ss) && FromScratch(rs) && i < |rs|
    ensures RoundStep(if i == 0 then map[] else RoundOf(rs[i - 1], ss[i - 1]).beliefs, RoundOf(rs[i], ss[i]))
  {
    assert Link(rs, ss, i);
    BuildIsRound(rs[i]);
  }

  lemma {:induction false} ChainIsRounds(rs: seq<Request>, ss: seq<Snapshot>, k: nat)
    requires IsChain(rs, ss) && FromScratch(rs) && k <= |rs|
    ensures RoundsOk(Rounds(rs, ss)[..k])
  {
    var ts := Rounds(rs, ss);
    if k > 0 {
      ChainIsRounds(rs, ss, k - 1);
      LinkIsRound(rs, ss, k - 1);
      assert ts[..k][..k - 1] == ts[..k - 1];
    }
  }

  lemma ChainRoundsOk(rs: seq<Request>, ss: seq<Snapshot>)
    requires IsChain(rs, ss) && FromScratch(rs)
    ensures RoundsOk(Rounds(rs, ss))
  {
    ChainIsRounds(rs, ss, |rs|);
    assert Rounds(rs, ss)[..|rs|] == Rounds(rs, ss);
  }

  // ----- What a belief says -----

  // The verdict of the last round that assessed the proposition.
  function LatestStatus(ts: seq<Round>, id: Id): BeliefStatus {
    if |ts| == 0 then Unknown
    else if id in ts[|ts| - 1].verdicts then ts[|ts| - 1].verdicts[id]
    else LatestStatus(ts[..|ts| - 1], id)
  }

  function Assessments(ts: seq<Round>, id: Id): nat {
    if |ts| == 0 then 0
    else Assessments(ts[..|ts| - 1], id) + if id in ts[|ts| - 1].verdicts then 1 else 0
  }

  // The first round to name the proposition did not assess it.
  predicate IntroducedUnassessed(ts: seq<Round>, id: Id) {
    |ts| > 0 &&
    var n := |ts| - 1;
    if exists i :: 0 <= i < n && id in ts[i].ids then IntroducedUnassessed(ts[..n], id)
    else id in ts[n].ids && id !in ts[n].verdicts
  }

  predicate Means(b: Belief, ts: seq<Round>, id: Id) {
    && b.status == LatestStatus(ts, id)
    && |b.revisions| == Assessments(ts, id) + if IntroducedUnassessed(ts, id) then 1 else 0
  }

  // What the last round does not name was never named nor assessed.
  lemma {:induction false} AbsentWasNever(ts: seq<Round>, id: Id)
    requires RoundsOk(ts)
    requires |ts| > 0 ==> id !in ts[|ts| - 1].ids
    ensures forall i :: 0 <= i < |ts| ==> id !in ts[i].ids
    ensures Assessments(ts, id) == 0 && LatestStatus(ts, id) == Unknown
  {
    if |ts| > 0 {
      AbsentWasNever(ts[..|ts| - 1], id);
    }
  }

  lemma {:induction false} RoundMeaning(ts: seq<Round>, id: Id)
    requires RoundsOk(ts) && |ts| > 0 && id in ts[|ts| - 1].ids
    ensures Means(ts[|ts| - 1].beliefs[id], ts, id)
  {
    var n := |ts| - 1;
    var b, prev := ts[n].beliefs[id], Lookup(Before(ts), id);
    assert BeliefStep(ts[n].snapshotId, id, prev, Lookup(ts[n].verdicts, id), b);
    if prev.Some? {
      RoundMeaning(ts[..n], id);
      assert id in ts[n - 1].ids;
    } else {
      if n > 0 { assert id !in ts[n - 1].ids; }
      AbsentWasNever(ts[..n], id);
      assert forall i :: 0 <= i < n ==> ts[..n][i] == ts[i];
    }
  }

  // The evidence of the last request that assessed the proposition.
  function LastEvidence(rs: seq<Request>, id: Id): Option<E.EvidenceRequest> {
    if |rs| == 0 then None
    else
      var n := |rs| - 1;
      if EvidenceFor(rs[n], id).Some? then EvidenceFor(rs[n], id) else LastEvidence(rs[..n], id)
  }

  lemma {:induction false} LatestIsLastEvidence(rs: seq<Request>, ss: seq<Snapshot>, id: Id)
    requires |rs| == |ss|
    ensures LatestStatus(Rounds(rs, ss), id) ==
      match LastEvidence(rs, id) case Some(e) => StatusForVerdict(E.VerdictOf(e)) case None => Unknown
  {
    if |rs| > 0 {
      var n := |rs| - 1;
      LatestIsLastEvidence(rs[..n], ss[..n], id);
      assert Rounds(rs, ss)[..n] == Rounds(rs[..n], ss[..n]);
    }
  }

  // A belief's status says which sides of the evidence qualify in the last
  // request that assessed it, or is UNKNOWN if none did; it has one revision
  // for each assessment, and one more if it was introduced unassessed.
  lemma BeliefMeaning(rs: seq<Request>, ss: seq<Snapshot>, id: Id)
    requires IsChain(rs, ss) && FromScratch(rs) && |rs| > 0 && id in PropositionIds(rs[|rs| - 1].propositions)
    ensures BeliefOf(ss[|ss| - 1], id).Some?
    ensures Means(BeliefOf(ss[|ss| - 1], id).value, Rounds(rs, ss), id)
    ensures var b := BeliefOf(ss[|ss| - 1], id).value;
      match LastEvidence(rs, id) case Some(e) => StandsOn(b.status, e) case None => b.status == Unknown
  {
    ChainRoundsOk(rs, ss);
    RoundMeaning(Rounds(rs, ss), id);
    LatestIsLastEvidence(rs, ss, id);
    if LastEvidence(rs, id).Some? { StatusMeaning(LastEvidence(rs, id).value); }
  }

  // ----- When a chain can be extended -----

  function SnapshotIds(ss: seq<Snapshot>): (r: seq<Id>)
    ensures |r| == |ss|
  {
    seq(|ss|, i requires 0 <= i < |ss| => ss[i].snapshotId)
  }

  function IdsSoFar(ts: seq<Round>): set<Id> {
    if |ts| == 0 then {} else IdsSoFar(ts[..|ts| - 1]) + {ts[|ts| - 1].snapshotId}
  }

  ghost predicate NamedBy(id: Id, history: seq<Revision>, snapshotIds: set<Id>) {
    forall k :: 0 <= k < |history| ==> NamedFor(history[k], snapshotIds, id)
  }

  lemma NamedStep(snapshotId: Id, id: Id, prev: Option<Belief>, verdict: Option<BeliefStatus>, b: Belief, ids: set<Id>)
    requires BeliefStep(snapshotId, id, prev, verdict, b) && NamedBy(id, History(prev), ids)
    ensures NamedBy(id, b.revisions, ids + {snapshotId})
  {
    var n := |History(prev)|;
    assert forall k :: 0 <= k < n ==> NamedFor(History(prev)[k], ids + {snapshotId}, id);
    forall k | 0 <= k < |b.revisions| ensures NamedFor(b.revisions[k], ids + {snapshotId}, id) {
      if k < n {
        assert b.revisions[..n][k] == History(prev)[k];
      }
    }
  }

  lemma {:induction false} HistoriesAreNamed(ts: seq<Round>, id: Id)
    requires RoundsOk(ts) && |ts| > 0
    ensures NamedBy(id, History(Lookup(ts[|ts| - 1].beliefs, id)), IdsSoFar(ts))
  {
    var n := |ts| - 1;
    if id in ts[n].beliefs {
      var prev := Lookup(Before(ts), id);
      if n > 0 { HistoriesAreNamed(ts[..n], id); }
      NamedStep(ts[n].snapshotId, id, prev, Lookup(ts[n].verdicts, id), ts[n].beliefs[id], IdsSoFar(ts[..n]));
    }
  }

  predicate AllAssessable(es: seq<E.EvidenceRequest>) {
    forall i :: 0 <= i < |es| ==> !E.Conflicting(es[i].evidence)
  }

  lemma {:induction false} BuildBeliefsSucceeds(snapshotId: Id, previous: map<Id, Belief>,
                                                evidence: map<Id, E.EvidenceRequest>, ps: seq<Proposition>)
    requires forall i :: 0 <= i < |ps| ==>
      BeliefFor(snapshotId, ps[i], Lookup(previous, ps[i].id), Lookup(evidence, ps[i].id)).Ok?
    ensures BuildBeliefs(snapshotId, previous, evidence, ps).Ok?
  {
    if |ps| > 0 {
      var n := |ps| - 1;
      assert forall i :: 0 <= i < n ==> ps[..n][i] == ps[i];
      BuildBeliefsSucceeds(snapshotId, previous, evidence, ps[..n]);
    }
  }

  lemma {:induction false} EvidenceByClaimAt(r: Request, es: seq<E.EvidenceRequest>, i: nat)
    requires i < |es| && EvidenceError(r, es).None?
    ensures Lookup(EvidenceByClaim(es), es[i].claimId) == Some(es[i])
    ensures es[i].claimId in PropositionIds(r.propositions)
  {
    var n := |es| - 1;
    if i < n {
      EvidenceByClaimAt(r, es[..n], i);
      assert Claims(es[..n])[i] == es[i].claimId;
    }
  }

  predicate Appendable(r: Request, e: E.EvidenceRequest) { !E.Conflicting(e.evidence) && !Retakes(r, e) }

  predicate AllAppendable(r: Request) {
    forall i :: 0 <= i < |r.evidenceRequests| ==> Appendable(r, r.evidenceRequests[i])
  }

  lemma AcceptedEvidenceIsAppendable(r: Request, i: nat)
    requires Build(r).Ok? && i < |r.evidenceRequests|
    ensures Appendable(r, r.evidenceRequests[i])
  {
    var e := r.evidenceRequests[i];
    EvidenceByClaimAt(r, r.evidenceRequests, i);
    var j :| 0 <= j < |r.propositions| && PropositionIds(r.propositions)[j] == e.claimId;
    BuiltBelief(r, r.propositions[j]);
  }

  lemma AppendableBuilds(r: Request, i: nat)
    requires RequestError(r).None? && i < |r.propositions|
    requires AllAppendable(r)
    ensures var p := r.propositions[i];
      BeliefFor(r.snapshotId, p, PreviousBelief(r, p.id), EvidenceFor(r, p.id)).Ok?
  {
    var id := r.propositions[i].id;
    EvidenceIsKnown(r, r.evidenceRequests, id);
    if EvidenceFor(r, id).Some? {
      assert Appendable(r, EvidenceFor(r, id).value);
    }
  }

  // A build succeeds exactly when the request is accepted, every evidence
  // request is consistent, and no revision id it asks for is taken already.
  lemma BuildSucceedsIff(r: Request)
    ensures Build(r).Ok? <==> Acceptable(r) && AllAppendable(r)
  {
    RequestErrorIff(r);
    if Build(r).Ok? {
      forall i | 0 <= i < |r.evidenceRequests| ensures Appendable(r, r.evidenceRequests[i]) {
        AcceptedEvidenceIsAppendable(r, i);
      }
    } else if RequestError(r).None? && AllAppendable(r) {
      forall i | 0 <= i < |r.propositions|
        ensures BeliefFor(r.snapshotId, r.propositions[i], PreviousBelief(r, r.propositions[i].id),
                          EvidenceFor(r, r.propositions[i].id)).Ok?
      {
        AppendableBuilds(r, i);
      }
      BuildBeliefsSucceeds(r.snapshotId, BeliefsById(PreviousBeliefs(r)), EvidenceByClaim(r.evidenceRequests),
                           r.propositions);
    }
  }

  // A snapshot id not used before, among ids that hold no colon.
  predicate FreshSnapshot(snapshotId: Id, ids: set<Id>) {
    ColonFree(snapshotId) && snapshotId !in ids && forall id :: id in ids ==> ColonFree(id)
  }

  lemma FreshIsNotTaken(ids: set<Id>, snapshotId: Id, id: Id, history: seq<Revision>, tag: string)
    requires FreshSnapshot(snapshotId, ids) && NamedBy(id, history, ids)
    ensures RevisionId(snapshotId, id, tag) !in RevisionIds(history)
  {
    forall k | 0 <= k < |history| ensures RevisionIds(history)[k] != RevisionId(snapshotId, id, tag) {
      assert NamedFor(history[k], ids, id);
      var was :| history[k].revisionId == RevisionId(history[k].snapshotId, id, was);
      if history[k].revisionId == RevisionId(snapshotId, id, tag) {
        RevisionIdNamesSnapshot(history[k].snapshotId, snapshotId, id, id, was, tag);
      }
    }
  }

  // Along a chain, a colon-free snapshot id not used before makes every
  // revision id new, so only the checks on the request and its evidence are left.
  lemma FreshIdsNeverCollide(rs: seq<Request>, ss: seq<Snapshot>, r: Request)
    requires IsChain(rs, ss) && FromScratch(rs)
    requires r.previousState == if |ss| == 0 then None else Some(ss[|ss| - 1])
    ensures FreshSnapshot(r.snapshotId, IdsSoFar(Rounds(rs, ss))) ==>
      && (forall e :: !Retakes(r, e))
      && (Build(r).Ok? <==> Acceptable(r) && AllAssessable(r.evidenceRequests))
  {
    var ts := Rounds(rs, ss);
    ChainRoundsOk(rs, ss);
    if FreshSnapshot(r.snapshotId, IdsSoFar(ts)) {
      forall e ensures !Retakes(r, e) {
        if |ts| > 0 { HistoriesAreNamed(ts, e.claimId); }
        FreshIsNotTaken(IdsSoFar(ts), r.snapshotId, e.claimId, History(PreviousBelief(r, e.claimId)), e.assessmentId);
      }
      BuildSucceedsIff(r);
    }
  }

  // Otherwise they can collide: a chain of two accepted requests, whose second
  // build is refused. Snapshots "x" and "x:p" assess "p" under "p:q" and "q".
  const EXAMPLE_CLAIM := Proposition("p", "g", Cmo, "claim")

  function Asking(snapshotId: Id, assessmentId: Id, previous: Option<Snapshot>): Request {
    Request(snapshotId, "g", Cmo, [EXAMPLE_CLAIM], [E.EvidenceRequest(assessmentId, "g", "p", Cmo, [])], previous)
  }

  lemma AskingIsAccepted(snapshotId: Id, assessmentId: Id)
    ensures var r := Asking(snapshotId, assessmentId, None);
      RequestError(r).None? && Build(r).Ok? && |Build(r).value.beliefs| == 1
      && Build(r).value.beliefs[0].proposition == EXAMPLE_CLAIM
      && |Build(r).value.beliefs[0].revisions| == 1
      && Build(r).value.beliefs[0].revisions[0].revisionId == RevisionId(snapshotId, "p", assessmentId)
  {
    var r := Asking(snapshotId, assessmentId, None);
    OneClaimIsAccepted(r);
    RequestErrorIff(r);
    BuildSucceedsIff(r);
    BuildIsValid(r);
    EvidenceByClaimAt(r, r.evidenceRequests, 0);
  }

  lemma OneClaimIsAccepted(r: Request)
    requires r.propositions == [EXAMPLE_CLAIM] && r.goalId == "g" && r.agent == Cmo
    requires |r.evidenceRequests| == 1 && r.evidenceRequests[0].goalId == "g" && r.evidenceRequests[0].agent == Cmo
    requires r.evidenceRequests[0].claimId == "p"
    ensures PropositionError(r, r.propositions).None? && EvidenceError(r, r.evidenceRequests).None?
  {
    assert PropositionIds(r.propositions)[0] == "p";
    assert r.propositions[..0] == [] && r.evidenceRequests[..0] == [];
  }

  lemma JoinedIdsCanCollide()
    ensures var r1 := Asking("x", "p:q", None);
      && Build(r1).Ok?
      && var r2 := Asking("x:p", "q", Some(Build(r1).value));
         RequestError(r2).None? && AllAssessable(r2.evidenceRequests) && Build(r2) == Err(DuplicateRevisionId)
  {
    AskingIsAccepted("x", "p:q");
    var s1 := Build(Asking("x", "p:q", None)).value;
    BuildIsValid(Asking("x", "p:q", None));
    assert RevisionIds(s1.beliefs[0].revisions)[0] == RevisionId("x", "p", "p:q");
    SecondIsRefused(Asking("x:p", "q", Some(s1)), s1);
  }

  lemma SecondIsRefused(r: Request, s: Snapshot)
    requires r == Asking("x:p", "q", Some(s)) && ValidSnapshot(s) && s.goalId == "g" && s.agent == Cmo
    requires s.snapshotId == "x" && |s.beliefs| == 1 && s.beliefs[0].proposition == EXAMPLE_CLAIM
    requires RevisionId("x", "p", "p:q") in RevisionIds(s.beliefs[0].revisions)
    ensures RequestError(r).None? && Build(r) == Err(DuplicateRevisionId)
  {
    OneClaimIsAccepted(r);
    assert PropositionsById(r.propositions) == map["p" := EXAMPLE_CLAIM];
    assert s.beliefs[..0] == [] && |"x"| != |"x:p"|;
    assert ContinuityError(PropositionsById(r.propositions), s.beliefs).None?;
    assert BeliefsById(s.beliefs) == map["p" := s.beliefs[0]];
    assert RevisionId("x", "p", "p:q") == "x:p:p:q" == RevisionId("x:p", "p", "q");
    assert EvidenceFor(r, "p") == Some(r.evidenceRequests[0]);
    assert BuildBeliefs(r.snapshotId, BeliefsById(s.beliefs), EvidenceByClaim(r.evidenceRequests), [EXAMPLE_CLAIM])
        == Err(DuplicateRevisionId);
  }
}
