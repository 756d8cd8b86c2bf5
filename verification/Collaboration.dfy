// Peer-review policy of brain/collaboration.py.
module Collaboration {
  import opened Foundation
  import opened Evidence

  datatype PeerReview = PeerReview(
    reviewId: Id, goalId: Id, proposalId: Id, reviewer: Agent, verdict: Verdict,
    refs: seq<Id>, request: Option<EvidenceRequest>)

  datatype Collab = Collab(
    assessmentId: Id, goalId: Id, proposalId: Id, author: Agent, verdict: Verdict,
    refs: seq<Id>, request: Option<EvidenceRequest>, reviews: seq<PeerReview>, quorum: int)

  datatype Disposition = Accept | Revise | Escalate | Inconclusive

  datatype CollabDecision = CollabDecision(
    assessmentId: Id, proposalId: Id, disposition: Disposition,
    supporting: seq<Id>, dissenting: seq<Id>, ignored: seq<Id>)

  // ---------- canonical evidence ----------

  function CanonicalRefs(a: Assessment): seq<Id> {
    match a.verdict
    case Supported => a.supporting
    case Refuted => a.contradicting
    case Contested => a.supporting + a.contradicting
    case Insufficient => a.supporting + a.contradicting
  }

  // Raw evidence that re-derives exactly the claimed verdict and references.
  predicate Rederives(q: EvidenceRequest, verdict: Verdict, refs: seq<Id>) {
    Assess(q).Ok? && Assess(q).value.verdict == verdict && CanonicalRefs(Assess(q).value) == refs
  }

  predicate CanonicalReview(r: PeerReview) {
    && r.request.Some?
    && r.request.value.goalId == r.goalId && r.request.value.claimId == r.proposalId
    && r.request.value.agent == r.reviewer
    && Rederives(r.request.value, r.verdict, r.refs)
  }

  predicate CanonicalProposal(c: Collab) {
    && c.request.Some?
    && c.request.value.goalId == c.goalId && c.request.value.claimId == c.proposalId
    && Rederives(c.request.value, c.verdict, c.refs)
  }

  function ReviewIds(rs: seq<PeerReview>): seq<Id> {
    seq(|rs|, i requires 0 <= i < |rs| => rs[i].reviewId)
  }

  // The PeerReview and CollaborationAssessment constructors.
  predicate ValidReview(r: PeerReview) {
    r.request.Some? ==> CanonicalReview(r)
  }

  predicate ValidCollab(c: Collab) {
    && 1 <= c.quorum <= 4
    && (c.request.Some? ==> CanonicalProposal(c))
    && Distinct(ReviewIds(c.reviews))
    && forall r :: r in c.reviews ==> ValidReview(r)
  }

  // ---------- which reviews count ----------

  predicate Structural(c: Collab, r: PeerReview) {
    r.goalId == c.goalId && r.proposalId == c.proposalId && r.reviewer != c.author
  }

  function Relevant(c: Collab): set<PeerReview> {
    set r | r in c.reviews && Structural(c, r)
  }

  predicate Repeated(rs: set<PeerReview>, a: Agent) {
    exists r, q :: r in rs && q in rs && r != q && r.reviewer == a && q.reviewer == a
  }

  function Eligible(c: Collab): set<PeerReview> {
    set r | r in Relevant(c) && !Repeated(Relevant(c), r.reviewer)
  }

  function SourcesOf(q: Option<EvidenceRequest>): set<Id> {
    match q case None => {} case Some(e) => set s | s in e.evidence :: s.sourceId
  }

  function ReviewSources(r: PeerReview): set<Id> {
    if CanonicalReview(r) then SourcesOf(r.request) else {}
  }

  function ProposalSources(c: Collab): set<Id> {
    if CanonicalProposal(c) then SourcesOf(c.request) else {}
  }

  // A review is common-mode when a source of it also serves the proposal or
  // another eligible review.
  predicate CommonMode(c: Collab, r: PeerReview) {
    || ReviewSources(r) * ProposalSources(c) != {}
    || exists q :: q in Eligible(c) && q != r && ReviewSources(q) * ReviewSources(r) != {}
  }

  // Eligible reviews with re-derived evidence from independent sources.
  function Backed(c: Collab): set<PeerReview> {
    set r | r in Eligible(c) && CanonicalReview(r) && !CommonMode(c, r)
  }

  function WithVerdict(rs: set<PeerReview>, v: Verdict): set<PeerReview> {
    set r | r in rs && r.verdict == v
  }

  function Supporting(c: Collab): set<PeerReview> {
    WithVerdict(Eligible(c), Supported) * Backed(c)
  }

  function Dissenting(c: Collab): set<PeerReview> {
    WithVerdict(Eligible(c), Refuted) + WithVerdict(Eligible(c), Contested)
  }

  // The final if-chain, given what the reviews contributed.
  function Decide(c: Collab, repeated: bool, refutations: set<PeerReview>, contests: set<PeerReview>,
                  backed: set<PeerReview>, supporters: nat): Disposition {
    if c.verdict.Refuted? then Revise
    else if c.verdict.Contested? then Escalate
    else if c.verdict.Insufficient? then Inconclusive
    else if repeated then Inconclusive
    else if refutations * backed != {} then Revise
    else if contests != {} then Escalate
    else if refutations - backed != {} then Escalate
    else if c.refs == [] then Inconclusive
    else if !CanonicalProposal(c) then Inconclusive
    else if supporters >= c.quorum then Accept
    else Inconclusive
  }

  function DispositionOf(c: Collab): Disposition {
    Decide(c, Relevant(c) - Eligible(c) != {}, WithVerdict(Eligible(c), Refuted), WithVerdict(Eligible(c), Contested),
           Backed(c), |Supporting(c)|)
  }

  // The members of `chosen`, in review order.
  function Pick(rs: seq<PeerReview>, chosen: set<PeerReview>): seq<PeerReview> {
    if rs == [] then []
    else Pick(rs[..|rs| - 1], chosen) + (if rs[|rs| - 1] in chosen then [rs[|rs| - 1]] else [])
  }

  function IdsOf(rs: seq<PeerReview>, chosen: set<PeerReview>): seq<Id> {
    ReviewIds(Pick(rs, chosen))
  }

  function Evaluate(c: Collab): CollabDecision {
    CollabDecision(c.assessmentId, c.proposalId, DispositionOf(c),
                   IdsOf(c.reviews, Supporting(c)), IdsOf(c.reviews, Dissenting(c)),
                   IdsOf(c.reviews, Elems(c.reviews) - Relevant(c))
                   + IdsOf(c.reviews, Relevant(c) - Eligible(c))
                   + IdsOf(c.reviews, set r | r in Eligible(c) && CommonMode(c, r)))
  }

  // ---------- picking ----------

  lemma PickStep(rs: seq<PeerReview>, chosen: set<PeerReview>, i: nat)
    requires i < |rs|
    ensures Pick(rs[..i + 1], chosen) == Pick(rs[..i], chosen) + (if rs[i] in chosen then [rs[i]] else [])
    ensures IdsOf(rs[..i + 1], chosen) == IdsOf(rs[..i], chosen) + (if rs[i] in chosen then [rs[i].reviewId] else [])
    ensures rs[i] in rs
  {
    assert rs[..i + 1][..i] == rs[..i];
  }

  lemma {:induction false} PickMembers(rs: seq<PeerReview>, chosen: set<PeerReview>)
    ensures forall r :: r in Pick(rs, chosen) <==> r in rs && r in chosen
  {
    if rs != [] {
      var n := |rs| - 1;
      PickMembers(rs[..n], chosen);
      assert rs == rs[..n] + [rs[n]];
    }
  }

  lemma {:induction false} PickTwice(rs: seq<PeerReview>, a: set<PeerReview>, b: set<PeerReview>)
    ensures Pick(Pick(rs, a), b) == Pick(rs, a * b)
  {
    if rs != [] {
      var n := |rs| - 1;
      PickTwice(rs[..n], a, b);
      var once := Pick(rs[..n], a);
      if rs[n] in a {
        assert Pick(rs, a) == once + [rs[n]] && (once + [rs[n]])[..|once|] == once;
      } else {
        assert Pick(rs, a) == once;
      }
    }
  }

  lemma {:induction false} PickDistinct(rs: seq<PeerReview>, chosen: set<PeerReview>)
    requires Distinct(ReviewIds(rs))
    ensures Distinct(ReviewIds(Pick(rs, chosen)))
    ensures Distinct(Pick(rs, chosen))
  {
    if rs != [] {
      var n := |rs| - 1;
      var before := Pick(rs[..n], chosen);
      assert ReviewIds(rs[..n]) == ReviewIds(rs)[..n];
      PickDistinct(rs[..n], chosen);
      PickMembers(rs[..n], chosen);
      if rs[n] in chosen {
        forall i | 0 <= i < |before| ensures before[i].reviewId != rs[n].reviewId {
          assert before[i] in before;
          var k :| 0 <= k < n && rs[k] == before[i];
          assert ReviewIds(rs)[k] != ReviewIds(rs)[n];
        }
        assert ReviewIds(before + [rs[n]]) == ReviewIds(before) + [rs[n].reviewId];
        DistinctAppend(ReviewIds(before), rs[n].reviewId);
      } else {
        assert Pick(rs, chosen) == before;
      }
    }
  }

  lemma IdDetermines(rs: seq<PeerReview>, r: PeerReview, q: PeerReview)
    requires Distinct(ReviewIds(rs)) && r in rs && q in rs && r.reviewId == q.reviewId
    ensures r == q
  {
    var i :| 0 <= i < |rs| && rs[i] == r;
    var j :| 0 <= j < |rs| && rs[j] == q;
    assert ReviewIds(rs)[i] == ReviewIds(rs)[j];
    assert i == j;
  }

  // ---------- the evaluation, step by step ----------

  method SplitStructural(c: Collab) returns (kept: seq<PeerReview>, ignored: seq<Id>)
    ensures kept == Pick(c.reviews, Relevant(c))
    ensures ignored == IdsOf(c.reviews, Elems(c.reviews) - Relevant(c))
  {
    ghost var relevant, others := Relevant(c), Elems(c.reviews) - Relevant(c);
    kept, ignored := [], [];
    var i := 0;
    while i < |c.reviews|
      invariant 0 <= i <= |c.reviews|
      invariant kept == Pick(c.reviews[..i], relevant) && ignored == IdsOf(c.reviews[..i], others)
    {
      var r := c.reviews[i];
      PickStep(c.reviews, relevant, i);
      PickStep(c.reviews, others, i);
      if r.goalId != c.goalId {
        ignored := ignored + [r.reviewId];
      } else if r.proposalId != c.proposalId {
        ignored := ignored + [r.reviewId];
      } else if r.reviewer == c.author {
        ignored := ignored + [r.reviewId];
      } else {
        kept := kept + [r];
      }
      i := i + 1;
    }
    assert c.reviews[..i] == c.reviews;
  }

  function ByReviewer(rs: set<PeerReview>, a: Agent): set<PeerReview> {
    set r | r in rs && r.reviewer == a
  }

  lemma RepeatedIffCounted(rs: set<PeerReview>, a: Agent)
    ensures Repeated(rs, a) <==> |ByReviewer(rs, a)| > 1
  {
    var s := ByReviewer(rs, a);
    if Repeated(rs, a) {
      var r, q :| r in rs && q in rs && r != q && r.reviewer == a && q.reviewer == a;
      assert {r, q} <= s;
      SubsetCard({r, q}, s);
    }
    if |s| > 1 {
      var r :| r in s;
      assert s == (s - {r}) + {r};
      var q :| q in s - {r};
      assert r in rs && q in rs && r != q;
    }
  }

  method CountReviewers(kept: seq<PeerReview>) returns (counts: map<Agent, int>)
    requires Distinct(kept)
    ensures forall r :: r in kept ==>
      r.reviewer in counts && (counts[r.reviewer] > 1 <==> Repeated(Elems(kept), r.reviewer))
  {
    counts := map[];
    var i := 0;
    while i < |kept|
      invariant 0 <= i <= |kept|
      invariant forall a: Agent :: (if a in counts then counts[a] else 0) == |ByReviewer(Elems(kept[..i]), a)|
      invariant forall r :: r in kept[..i] ==> r.reviewer in counts
    {
      var r := kept[i];
      assert kept[..i + 1] == kept[..i] + [r];
      forall a: Agent
        ensures |ByReviewer(Elems(kept[..i + 1]), a)|
             == |ByReviewer(Elems(kept[..i]), a)| + (if a == r.reviewer then 1 else 0)
      {
        OneMore(kept, i, a);
      }
      counts := counts[r.reviewer := (if r.reviewer in counts then counts[r.reviewer] else 0) + 1];
      i := i + 1;
    }
    assert kept[..i] == kept;
    forall r | r in kept ensures counts[r.reviewer] > 1 <==> Repeated(Elems(kept), r.reviewer) {
      RepeatedIffCounted(Elems(kept), r.reviewer);
    }
  }

  lemma OneMore(kept: seq<PeerReview>, i: nat, a: Agent)
    requires Distinct(kept) && i < |kept|
    ensures |ByReviewer(Elems(kept[..i + 1]), a)|
         == |ByReviewer(Elems(kept[..i]), a)| + (if a == kept[i].reviewer then 1 else 0)
  {
    assert kept[..i + 1] == kept[..i] + [kept[i]];
    var before, after := ByReviewer(Elems(kept[..i]), a), ByReviewer(Elems(kept[..i + 1]), a);
    if a == kept[i].reviewer {
      assert after == before + {kept[i]};
      assert kept[i] !in kept[..i];
    } else {
      assert after == before;
    }
  }

  method DropRepeated(c: Collab, kept: seq<PeerReview>) returns (eligible: seq<PeerReview>, ignored: seq<Id>)
    requires Distinct(ReviewIds(c.reviews)) && kept == Pick(c.reviews, Relevant(c))
    ensures eligible == Pick(c.reviews, Eligible(c))
    ensures ignored == IdsOf(c.reviews, Relevant(c) - Eligible(c))
    ensures ignored != [] <==> Relevant(c) - Eligible(c) != {}
  {
    PickDistinct(c.reviews, Relevant(c));
    KeptAreRelevant(c, kept);
    var counts := CountReviewers(kept);
    ghost var good, bad := Eligible(c), Relevant(c) - Eligible(c);
    eligible, ignored := [], [];
    var i := 0;
    while i < |kept|
      invariant 0 <= i <= |kept|
      invariant eligible == Pick(kept[..i], good) && ignored == IdsOf(kept[..i], bad)
    {
      var r := kept[i];
      PickStep(kept, good, i);
      PickStep(kept, bad, i);
      GoodIffOnce(c, r);
      if counts[r.reviewer] > 1 {
        ignored := ignored + [r.reviewId];
      } else {
        eligible := eligible + [r];
      }
      i := i + 1;
    }
    assert kept[..i] == kept;
    SplitIsWhole(c, kept);
  }

  lemma KeptAreRelevant(c: Collab, kept: seq<PeerReview>)
    requires kept == Pick(c.reviews, Relevant(c))
    ensures Elems(kept) == Relevant(c)
  {
    PickMembers(c.reviews, Relevant(c));
  }

  lemma GoodIffOnce(c: Collab, r: PeerReview)
    requires r in Relevant(c)
    ensures r in Eligible(c) <==> !Repeated(Relevant(c), r.reviewer)
    ensures r in Relevant(c) - Eligible(c) <==> Repeated(Relevant(c), r.reviewer)
  {
  }

  lemma SplitIsWhole(c: Collab, kept: seq<PeerReview>)
    requires kept == Pick(c.reviews, Relevant(c))
    ensures Pick(kept, Eligible(c)) == Pick(c.reviews, Eligible(c))
    ensures IdsOf(kept, Relevant(c) - Eligible(c)) == IdsOf(c.reviews, Relevant(c) - Eligible(c))
    ensures IdsOf(c.reviews, Relevant(c) - Eligible(c)) != [] <==> Relevant(c) - Eligible(c) != {}
  {
    PickWithin(c.reviews, Relevant(c), Eligible(c));
    PickWithin(c.reviews, Relevant(c), Relevant(c) - Eligible(c));
    PickEmptyIff(c.reviews, Relevant(c) - Eligible(c));
  }

  lemma PickWithin(rs: seq<PeerReview>, a: set<PeerReview>, b: set<PeerReview>)
    requires b <= a
    ensures Pick(Pick(rs, a), b) == Pick(rs, b)
  {
    PickTwice(rs, a, b);
    assert a * b == b;
  }

  lemma PickEmptyIff(rs: seq<PeerReview>, chosen: set<PeerReview>)
    requires chosen <= Elems(rs)
    ensures Pick(rs, chosen) == [] <==> chosen == {}
  {
    PickMembers(rs, chosen);
    if chosen != {} {
      var r :| r in chosen;
      assert r in Pick(rs, chosen);
    }
    if Pick(rs, chosen) != [] {
      assert Pick(rs, chosen)[0] in Pick(rs, chosen);
    }
  }

  // `source_review_ids`: for each source the ids of the reviews that use it.
  // `table` is `review_sources`.
  ghost predicate SourceIndex(users: map<Id, set<Id>>, table: map<PeerReview, set<Id>>, rs: set<PeerReview>) {
    && rs <= table.Keys
    && (forall r, s :: r in rs && s in table[r] ==> s in users && r.reviewId in users[s])
    && (forall s, id :: s in users && id in users[s] ==> UsedBy(table, rs, s, id))
  }

  ghost predicate UsedBy(table: map<PeerReview, set<Id>>, rs: set<PeerReview>, source: Id, id: Id)
    requires rs <= table.Keys
  {
    exists r :: r in rs && r.reviewId == id && source in table[r]
  }

  function AddUser(users: map<Id, set<Id>>, sources: set<Id>, id: Id): map<Id, set<Id>> {
    map s | s in users.Keys + sources ::
      (if s in users then users[s] else {}) + (if s in sources then {id} else {})
  }

  lemma SourceIndexAdd(users: map<Id, set<Id>>, table: map<PeerReview, set<Id>>, rs: set<PeerReview>, r: PeerReview)
    requires SourceIndex(users, table, rs) && r in table
    ensures SourceIndex(AddUser(users, table[r], r.reviewId), table, rs + {r})
  {
    var next := AddUser(users, table[r], r.reviewId);
    forall s, id | s in next && id in next[s] ensures UsedBy(table, rs + {r}, s, id) {
      if s in users && id in users[s] {
        assert UsedBy(table, rs, s, id);
      }
    }
  }

  lemma IndexNext(users: map<Id, set<Id>>, table: map<PeerReview, set<Id>>, eligible: seq<PeerReview>, i: nat)
    requires i < |eligible| && Elems(eligible) <= table.Keys
    requires SourceIndex(users, table, Elems(eligible[..i]))
    ensures eligible[i] in table
    ensures SourceIndex(AddUser(users, table[eligible[i]], eligible[i].reviewId), table, Elems(eligible[..i + 1]))
  {
    assert eligible[..i + 1] == eligible[..i] + [eligible[i]];
    ElemsAppend(eligible[..i], [eligible[i]]);
    assert eligible[i] in Elems(eligible);
    SourceIndexAdd(users, table, Elems(eligible[..i]), eligible[i]);
  }

  method IndexSources(eligible: seq<PeerReview>, table: map<PeerReview, set<Id>>) returns (users: map<Id, set<Id>>)
    requires Elems(eligible) <= table.Keys
    ensures SourceIndex(users, table, Elems(eligible))
  {
    users := map[];
    var i := 0;
    while i < |eligible|
      invariant 0 <= i <= |eligible|
      invariant SourceIndex(users, table, Elems(eligible[..i]))
    {
      IndexNext(users, table, eligible, i);
      users := AddUser(users, table[eligible[i]], eligible[i].reviewId);
      i := i + 1;
    }
    assert eligible[..i] == eligible;
  }

  predicate SharesSource(users: map<Id, set<Id>>, sources: set<Id>) {
    exists s :: s in sources && s in users && |users[s]| > 1
  }

  lemma OtherMember(s: set<Id>, a: Id) returns (b: Id)
    requires |s| > 1
    ensures b in s && b != a
  {
    if s - {a} == {} { SubsetCard(s, {a}); }
    b :| b in s - {a};
  }

  // More than one id behind a source means another review cites it too.
  lemma SharedIffOtherUser(users: map<Id, set<Id>>, table: map<PeerReview, set<Id>>, rs: set<PeerReview>, r: PeerReview)
    requires SourceIndex(users, table, rs) && r in rs
    requires forall q :: q in rs && q.reviewId == r.reviewId ==> q == r
    ensures SharesSource(users, table[r]) <==> exists q :: q in rs && q != r && table[q] * table[r] != {}
  {
    if SharesSource(users, table[r]) {
      var s :| s in table[r] && s in users && |users[s]| > 1;
      var id := OtherMember(users[s], r.reviewId);
      assert UsedBy(table, rs, s, id);
      var q :| q in rs && q.reviewId == id && s in table[q];
      assert s in table[q] * table[r];
    }
    if exists q :: q in rs && q != r && table[q] * table[r] != {} {
      var q :| q in rs && q != r && table[q] * table[r] != {};
      var s :| s in table[q] * table[r];
      assert {q.reviewId, r.reviewId} <= users[s];
      SubsetCard({q.reviewId, r.reviewId}, users[s]);
    }
  }

  method FindCommonMode(c: Collab, eligible: seq<PeerReview>) returns (common: set<PeerReview>)
    requires Distinct(ReviewIds(c.reviews)) && Elems(eligible) == Eligible(c)
    ensures common == set r | r in Eligible(c) && CommonMode(c, r)
  {
    var table := map r | r in Elems(eligible) :: ReviewSources(r);
    var users := IndexSources(eligible, table);
    var proposalSources := ProposalSources(c);
    common := set r | r in table.Keys && (table[r] * proposalSources != {} || SharesSource(users, table[r]));
    forall r | r in table.Keys
      ensures table[r] * proposalSources != {} || SharesSource(users, table[r]) <==> CommonMode(c, r)
    {
      CommonModeByTable(c, users, table, r);
    }
  }

  lemma CommonModeByTable(c: Collab, users: map<Id, set<Id>>, table: map<PeerReview, set<Id>>, r: PeerReview)
    requires Distinct(ReviewIds(c.reviews))
    requires table.Keys == Eligible(c) && (forall q :: q in table ==> table[q] == ReviewSources(q)) && r in table
    requires SourceIndex(users, table, Eligible(c))
    ensures CommonMode(c, r) <==> table[r] * ProposalSources(c) != {} || SharesSource(users, table[r])
  {
    forall q | q in Eligible(c) && q.reviewId == r.reviewId ensures q == r {
      IdDetermines(c.reviews, q, r);
    }
    SharedIffOtherUser(users, table, Eligible(c), r);
    SharedByTable(Eligible(c), table, r);
  }

  lemma SharedByTable(rs: set<PeerReview>, table: map<PeerReview, set<Id>>, r: PeerReview)
    requires table.Keys == rs && (forall q :: q in table ==> table[q] == ReviewSources(q)) && r in table
    ensures (exists q :: q in rs && q != r && ReviewSources(q) * ReviewSources(r) != {})
       <==> (exists q :: q in rs && q != r && table[q] * table[r] != {})
  {
    if exists q :: q in rs && q != r && table[q] * table[r] != {} {
      var q :| q in rs && q != r && table[q] * table[r] != {};
      assert ReviewSources(q) * ReviewSources(r) != {};
    }
    if exists q :: q in rs && q != r && ReviewSources(q) * ReviewSources(r) != {} {
      var q :| q in rs && q != r && ReviewSources(q) * ReviewSources(r) != {};
      assert table[q] * table[r] != {};
    }
  }

  lemma PickSize(rs: seq<PeerReview>, chosen: set<PeerReview>)
    requires Distinct(ReviewIds(rs)) && chosen <= Elems(rs)
    ensures |Pick(rs, chosen)| == |chosen|
  {
    PickDistinct(rs, chosen);
    PickMembers(rs, chosen);
    DistinctCard(Pick(rs, chosen));
    assert Elems(Pick(rs, chosen)) == chosen;
  }

  // `evaluate_collaboration`. The four dispositions exclude one another, and
  // each list holds exactly the ids of the reviews that played that part.
  method EvaluateCollaboration(c: Collab) returns (d: CollabDecision)
    requires ValidCollab(c)
    ensures d == Evaluate(c)
    ensures Answers(c, d)
  {
    EvaluationAnswers(c);
    var kept, ignored := SplitStructural(c);
    var eligible, ignoredRepeats := DropRepeated(c, kept);
    PickMembers(c.reviews, Eligible(c));
    assert Elems(eligible) == Eligible(c);
    var common := FindCommonMode(c, eligible);
    var backed := set r | r in Elems(eligible) && CanonicalReview(r) && r !in common;
    assert backed == Backed(c);
    var refutations, contests := WithVerdict(Elems(eligible), Refuted), WithVerdict(Elems(eligible), Contested);
    var supporting := Pick(eligible, WithVerdict(Elems(eligible), Supported) * backed);
    FinalPicks(c, eligible, common);
    d := CollabDecision(c.assessmentId, c.proposalId,
                        Decide(c, ignoredRepeats != [], refutations, contests, backed, |supporting|),
                        ReviewIds(supporting), ReviewIds(Pick(eligible, refutations + contests)),
                        ignored + ignoredRepeats + ReviewIds(Pick(eligible, common)));
  }

  lemma FinalPicks(c: Collab, eligible: seq<PeerReview>, common: set<PeerReview>)
    requires Distinct(ReviewIds(c.reviews)) && eligible == Pick(c.reviews, Eligible(c)) && common <= Eligible(c)
    ensures Pick(eligible, Supporting(c)) == Pick(c.reviews, Supporting(c))
    ensures Pick(eligible, Dissenting(c)) == Pick(c.reviews, Dissenting(c))
    ensures Pick(eligible, common) == Pick(c.reviews, common)
    ensures |Pick(c.reviews, Supporting(c))| == |Supporting(c)|
  {
    PickWithin(c.reviews, Eligible(c), Supporting(c));
    PickWithin(c.reviews, Eligible(c), Dissenting(c));
    PickWithin(c.reviews, Eligible(c), common);
    PickSize(c.reviews, Supporting(c));
  }

  // ---------- what the dispositions and the lists mean ----------

  // Two of the reviews of this proposal come from one peer.
  predicate RepeatedReviewer(c: Collab) {
    exists r, q :: r in c.reviews && q in c.reviews && r != q && Structural(c, r) && Structural(c, q)
                   && r.reviewer == q.reviewer
  }

  // A re-derived review from independent sources refutes the proposal.
  predicate SoundRefutation(c: Collab) {
    exists r :: r in Eligible(c) && r.verdict.Refuted? && CanonicalReview(r) && !CommonMode(c, r)
  }

  predicate AnyDissent(c: Collab) {
    exists r :: r in Eligible(c) && (r.verdict.Refuted? || r.verdict.Contested?)
  }

  predicate MustAccept(c: Collab) { c.verdict.Supported? && CanonicalProposal(c) && PeersAgree(c) }

  predicate MustRevise(c: Collab) {
    c.verdict.Refuted? || (c.verdict.Supported? && !RepeatedReviewer(c) && SoundRefutation(c))
  }

  predicate MustEscalate(c: Collab) {
    || c.verdict.Contested?
    || (c.verdict.Supported? && !RepeatedReviewer(c) && !SoundRefutation(c) && AnyDissent(c))
  }

  lemma RepeatedIff(c: Collab)
    ensures Relevant(c) - Eligible(c) != {} <==> RepeatedReviewer(c)
  {
    if RepeatedReviewer(c) {
      var r, q :| r in c.reviews && q in c.reviews && r != q && Structural(c, r) && Structural(c, q)
        && r.reviewer == q.reviewer;
      assert r in Relevant(c) && q in Relevant(c);
      assert r in Relevant(c) - Eligible(c);
    }
    if Relevant(c) - Eligible(c) != {} {
      var r :| r in Relevant(c) - Eligible(c);
      var p, q :| p in Relevant(c) && q in Relevant(c) && p != q && p.reviewer == r.reviewer == q.reviewer;
      assert p in c.reviews && q in c.reviews;
    }
  }

  lemma SoundRefutationIff(c: Collab)
    ensures SoundRefutation(c) <==> WithVerdict(Eligible(c), Refuted) * Backed(c) != {}
  {
    if SoundRefutation(c) {
      var r :| r in Eligible(c) && r.verdict.Refuted? && CanonicalReview(r) && !CommonMode(c, r);
      assert r in WithVerdict(Eligible(c), Refuted) * Backed(c);
    }
  }

  lemma AnyDissentIff(c: Collab)
    ensures AnyDissent(c) <==> WithVerdict(Eligible(c), Contested) != {} || WithVerdict(Eligible(c), Refuted) != {}
    ensures AnyDissent(c) <==> Dissenting(c) != {}
  {
    if AnyDissent(c) {
      var r :| r in Eligible(c) && (r.verdict.Refuted? || r.verdict.Contested?);
      assert r in Dissenting(c);
      assert r in WithVerdict(Eligible(c), Contested) || r in WithVerdict(Eligible(c), Refuted);
    }
  }

  // Which of the four the final chain answers, in the reviews themselves.
  lemma DispositionMeaning(c: Collab)
    ensures DispositionOf(c) == Accept <==> MustAccept(c)
    ensures DispositionOf(c) == Revise <==> MustRevise(c)
    ensures DispositionOf(c) == Escalate <==> MustEscalate(c)
    ensures DispositionOf(c) == Inconclusive <==> !MustAccept(c) && !MustRevise(c) && !MustEscalate(c)
  {
    AcceptIff(c);
    RepeatedIff(c);
    SoundRefutationIff(c);
    AnyDissentIff(c);
    DecideElse(c, Relevant(c) - Eligible(c) != {}, WithVerdict(Eligible(c), Refuted),
               WithVerdict(Eligible(c), Contested), Backed(c), |Supporting(c)|);
  }

  lemma DecideElse(c: Collab, repeated: bool, refutations: set<PeerReview>, contests: set<PeerReview>,
                   backed: set<PeerReview>, supporters: nat)
    ensures var d := Decide(c, repeated, refutations, contests, backed, supporters);
      && (d == Revise <==>
            c.verdict.Refuted? || (c.verdict.Supported? && !repeated && refutations * backed != {}))
      && (d == Escalate <==>
            || c.verdict.Contested?
            || (c.verdict.Supported? && !repeated && refutations * backed == {}
                && (contests != {} || refutations != {})))
  {
    SplitEmpty(refutations, backed);
  }

  // Parts a review can play in the decision; ids are distinct, so each id
  // stands for one review.
  predicate SpeaksFor(c: Collab, id: Id) {
    exists r :: r in Eligible(c) && r.reviewId == id && r.verdict.Supported? && CanonicalReview(r) && !CommonMode(c, r)
  }

  predicate SpeaksAgainst(c: Collab, id: Id) {
    exists r :: r in Eligible(c) && r.reviewId == id && (r.verdict.Refuted? || r.verdict.Contested?)
  }

  // Of another goal or proposal, by the author, by a repeated reviewer, or
  // sharing a source.
  predicate IsIgnored(c: Collab, id: Id) {
    exists r :: r in c.reviews && r.reviewId == id
                && (!Structural(c, r) || Repeated(Relevant(c), r.reviewer) || CommonMode(c, r))
  }

  lemma IdsMembers(rs: seq<PeerReview>, chosen: set<PeerReview>, id: Id)
    ensures id in IdsOf(rs, chosen) <==> exists r :: r in rs && r in chosen && r.reviewId == id
  {
    var picked := Pick(rs, chosen);
    PickMembers(rs, chosen);
    if id in ReviewIds(picked) {
      var k :| 0 <= k < |picked| && ReviewIds(picked)[k] == id;
      assert picked[k] in picked;
    }
    if exists r :: r in rs && r in chosen && r.reviewId == id {
      var r :| r in rs && r in chosen && r.reviewId == id;
      var k :| 0 <= k < |picked| && picked[k] == r;
      assert ReviewIds(picked)[k] == id;
    }
  }

  lemma ListsMeaning(c: Collab)
    ensures forall id :: id in Evaluate(c).supporting <==> SpeaksFor(c, id)
    ensures forall id :: id in Evaluate(c).dissenting <==> SpeaksAgainst(c, id)
    ensures forall id :: id in Evaluate(c).ignored <==> IsIgnored(c, id)
  {
    forall id ensures id in Evaluate(c).supporting <==> SpeaksFor(c, id) { SupportingMembers(c, id); }
    forall id ensures id in Evaluate(c).dissenting <==> SpeaksAgainst(c, id) { DissentingMembers(c, id); }
    forall id ensures id in Evaluate(c).ignored <==> IsIgnored(c, id) { IgnoredMembers(c, id); }
  }

  ghost predicate Answers(c: Collab, d: CollabDecision) {
    && d.assessmentId == c.assessmentId && d.proposalId == c.proposalId
    && (d.disposition == Accept <==> MustAccept(c))
    && (d.disposition == Revise <==> MustRevise(c))
    && (d.disposition == Escalate <==> MustEscalate(c))
    && (d.disposition == Inconclusive <==> !MustAccept(c) && !MustRevise(c) && !MustEscalate(c))
    && (forall id :: id in d.supporting <==> SpeaksFor(c, id))
    && (forall id :: id in d.dissenting <==> SpeaksAgainst(c, id))
    && (forall id :: id in d.ignored <==> IsIgnored(c, id))
  }

  lemma EvaluationAnswers(c: Collab)
    ensures Answers(c, Evaluate(c))
  {
    DispositionMeaning(c);
    ListsMeaning(c);
  }

  lemma SupportingMembers(c: Collab, id: Id)
    ensures id in Evaluate(c).supporting <==> SpeaksFor(c, id)
  {
    IdsMembers(c.reviews, Supporting(c), id);
    ForMembers(c, Supporting(c), id);
  }

  lemma ForMembers(c: Collab, chosen: set<PeerReview>, id: Id)
    requires chosen == Supporting(c)
    ensures (exists r :: r in c.reviews && r in chosen && r.reviewId == id) <==> SpeaksFor(c, id)
  {
    forall r
      ensures r in chosen <==> r in Eligible(c) && r.verdict.Supported? && CanonicalReview(r) && !CommonMode(c, r)
    {
    }
  }

  lemma DissentingMembers(c: Collab, id: Id)
    ensures id in Evaluate(c).dissenting <==> SpeaksAgainst(c, id)
  {
    IdsMembers(c.reviews, Dissenting(c), id);
    AgainstMembers(c, Dissenting(c), id);
  }

  lemma AgainstMembers(c: Collab, chosen: set<PeerReview>, id: Id)
    requires chosen == Dissenting(c)
    ensures (exists r :: r in c.reviews && r in chosen && r.reviewId == id) <==> SpeaksAgainst(c, id)
  {
    forall r ensures r in chosen <==> r in Eligible(c) && (r.verdict.Refuted? || r.verdict.Contested?) {
    }
  }

  lemma IgnoredMembers(c: Collab, id: Id)
    ensures id in Evaluate(c).ignored <==> IsIgnored(c, id)
  {
    var others, repeats := Elems(c.reviews) - Relevant(c), Relevant(c) - Eligible(c);
    var common := set r | r in Eligible(c) && CommonMode(c, r);
    IdsMembers(c.reviews, others, id);
    IdsMembers(c.reviews, repeats, id);
    IdsMembers(c.reviews, common, id);
    IgnoredKinds(c, others, repeats, common, id);
  }

  lemma IgnoredKinds(c: Collab, others: set<PeerReview>, repeats: set<PeerReview>, common: set<PeerReview>, id: Id)
    requires others == Elems(c.reviews) - Relevant(c) && repeats == Relevant(c) - Eligible(c)
    requires forall r :: r in common <==> r in Eligible(c) && CommonMode(c, r)
    ensures (exists r :: r in c.reviews && r in others + repeats + common && r.reviewId == id) <==> IsIgnored(c, id)
  {
    forall r | r in c.reviews
      ensures r in others + repeats + common <==>
        !Structural(c, r) || Repeated(Relevant(c), r.reviewer) || CommonMode(c, r)
    {
    }
  }

  // What a verdict and its references mean when raw evidence re-derives them.
  lemma RederivedMeaning(q: EvidenceRequest, verdict: Verdict, refs: seq<Id>, id: Id)
    requires Rederives(q, verdict, refs)
    ensures Says(verdict, Qualifies(Side(q, Supports)), Qualifies(Side(q, Contradicts)))
    ensures verdict.Supported? ==> InFirstOrder(q.evidence, refs) && (id in refs <==> Cites(q, Supports, id))
    ensures verdict.Refuted? ==> InFirstOrder(q.evidence, refs) && (id in refs <==> Cites(q, Contradicts, id))
    ensures verdict.Contested? || verdict.Insufficient? ==>
      refs == Assess(q).value.supporting + Assess(q).value.contradicting
      && (id in refs <==> Cites(q, Supports, id) || Cites(q, Contradicts, id))
  {
    VerdictMeaning(q);
    AssessmentMeaning(q, id);
  }

  // ---------- what acceptance guarantees ----------

  // One supporting review of this proposal by a peer, with re-derived evidence
  // of its own about the proposal, from at least one source and none the
  // proposal uses.
  predicate SoundBacker(c: Collab, r: PeerReview) {
    && r in c.reviews && r.verdict.Supported? && CanonicalReview(r)
    && r.request.Some? && r.request.value.goalId == c.goalId && r.request.value.claimId == c.proposalId
    && r.request.value.agent == r.reviewer
    && r.goalId == c.goalId && r.proposalId == c.proposalId && r.reviewer != c.author
    && ReviewSources(r) != {} && ReviewSources(r) * ProposalSources(c) == {}
  }

  // Reviews by different agents, none the author, citing pairwise disjoint
  // non-empty source sets that are also disjoint from the proposal's.
  predicate IndependentlyBacked(c: Collab, backers: set<PeerReview>) {
    && ProposalSources(c) != {}
    && (forall r :: r in backers ==> SoundBacker(c, r))
    && (forall r, q :: r in backers && q in backers && r != q ==>
          r.reviewer != q.reviewer && ReviewSources(r) * ReviewSources(q) == {})
  }

  lemma SupportHasSources(q: EvidenceRequest, refs: seq<Id>)
    requires Rederives(q, Supported, refs)
    ensures SourcesOf(Some(q)) != {} && refs != []
  {
    SupportedHasSources(q);
    var s :| s in q.evidence && s.origin.Observed? && s.relation.Supports?;
    assert s.sourceId in SourcesOf(Some(q));
  }

  lemma AcceptedBasics(c: Collab)
    requires DispositionOf(c) == Accept
    ensures c.verdict.Supported? && CanonicalProposal(c) && |Supporting(c)| >= c.quorum
    ensures Relevant(c) - Eligible(c) == {} && WithVerdict(Eligible(c), Contested) == {}
    ensures WithVerdict(Eligible(c), Refuted) * Backed(c) == {} && WithVerdict(Eligible(c), Refuted) - Backed(c) == {}
  {
  }

  lemma SupportersAreIndependent(c: Collab)
    requires ProposalSources(c) != {}
    ensures IndependentlyBacked(c, Supporting(c))
  {
    forall r | r in Supporting(c) ensures SoundBacker(c, r) {
      BackerIsSound(c, r);
    }
    forall r, q | r in Supporting(c) && q in Supporting(c) && r != q
      ensures r.reviewer != q.reviewer && ReviewSources(r) * ReviewSources(q) == {}
    {
      BackersDiffer(c, r, q);
    }
  }

  lemma AcceptedIsIndependentlyBacked(c: Collab)
    requires DispositionOf(c) == Accept
    ensures c.verdict.Supported? && CanonicalProposal(c)
    ensures |Supporting(c)| >= c.quorum
    ensures IndependentlyBacked(c, Supporting(c))
    ensures forall r :: r in Relevant(c) ==> !r.verdict.Refuted? && !r.verdict.Contested?
  {
    AcceptedBasics(c);
    SupportHasSources(c.request.value, c.refs);
    SupportersAreIndependent(c);
    forall r | r in Relevant(c) ensures !r.verdict.Refuted? && !r.verdict.Contested? {
      AcceptedHasNoDissent(c, r);
    }
  }

  // No reviewer speaks twice, nobody dissents, and the quorum of supporters is met.
  predicate PeersAgree(c: Collab) {
    Relevant(c) == Eligible(c) && Dissenting(c) == {} && |Supporting(c)| >= c.quorum
  }

  // The exact condition of an acceptance.
  lemma AcceptIff(c: Collab)
    ensures DispositionOf(c) == Accept <==> c.verdict.Supported? && CanonicalProposal(c) && PeersAgree(c)
  {
    var eligible, backed := Eligible(c), Backed(c);
    var refutations, contests := WithVerdict(eligible, Refuted), WithVerdict(eligible, Contested);
    DecideAccepts(c, Relevant(c) - eligible != {}, refutations, contests, backed, |Supporting(c)|);
    NothingLeft(Relevant(c), eligible);
    UnionEmpty(refutations, contests);
  }

  lemma DecideAccepts(c: Collab, repeated: bool, refutations: set<PeerReview>, contests: set<PeerReview>,
                      backed: set<PeerReview>, supporters: nat)
    ensures Decide(c, repeated, refutations, contests, backed, supporters) == Accept <==>
      && c.verdict.Supported? && CanonicalProposal(c)
      && !repeated && refutations == {} && contests == {} && supporters >= c.quorum
  {
    SplitEmpty(refutations, backed);
    if c.verdict.Supported? && CanonicalProposal(c) { SupportHasSources(c.request.value, c.refs); }
  }

  lemma NothingLeft(a: set<PeerReview>, b: set<PeerReview>)
    requires b <= a
    ensures a - b == {} <==> a == b
  {
    assert a == (a - b) + b;
  }

  lemma SplitEmpty(a: set<PeerReview>, b: set<PeerReview>)
    ensures a == {} <==> a * b == {} && a - b == {}
  {
    assert a == a * b + (a - b);
  }

  lemma UnionEmpty(a: set<PeerReview>, b: set<PeerReview>)
    ensures a + b == {} <==> a == {} && b == {}
  {
    assert a <= a + b && b <= a + b;
  }

  lemma BackerIsSound(c: Collab, r: PeerReview)
    requires r in Supporting(c)
    ensures SoundBacker(c, r)
  {
    SupportHasSources(r.request.value, r.refs);
    assert !CommonMode(c, r);
  }

  lemma BackersDiffer(c: Collab, r: PeerReview, q: PeerReview)
    requires r in Backed(c) && q in Backed(c) && r != q
    ensures r.reviewer != q.reviewer && ReviewSources(r) * ReviewSources(q) == {}
  {
    assert !Repeated(Relevant(c), r.reviewer);
    assert !CommonMode(c, q) && r in Eligible(c);
  }

  lemma AcceptedHasNoDissent(c: Collab, r: PeerReview)
    requires Relevant(c) - Eligible(c) == {} && WithVerdict(Eligible(c), Contested) == {}
    requires WithVerdict(Eligible(c), Refuted) * Backed(c) == {} && WithVerdict(Eligible(c), Refuted) - Backed(c) == {}
    requires r in Relevant(c)
    ensures !r.verdict.Refuted? && !r.verdict.Contested?
  {
    assert r !in Relevant(c) - Eligible(c);
    assert r !in WithVerdict(Eligible(c), Contested);
    assert r !in WithVerdict(Eligible(c), Refuted) * Backed(c);
    assert r !in WithVerdict(Eligible(c), Refuted) - Backed(c);
  }

  function Agents(backers: set<PeerReview>): set<Agent> {
    set r | r in backers :: r.reviewer
  }

  function AllSources(table: map<PeerReview, set<Id>>, backers: set<PeerReview>): set<Id>
    requires backers <= table.Keys
  {
    set r, s | r in backers && s in table[r] :: s
  }

  // The sources whose own observations support what the request claims.
  function SupportingSources(q: Option<EvidenceRequest>): set<Id> {
    match q
    case None => {}
    case Some(e) => set s | s in e.evidence && InScope(e, s) && s.relation.Supports? && s.origin.Observed? :: s.sourceId
  }

  function SupportTable(backers: set<PeerReview>): map<PeerReview, set<Id>> {
    map r | r in backers :: SupportingSources(r.request)
  }

  lemma SupportIsObserved(q: EvidenceRequest, refs: seq<Id>)
    requires Rederives(q, Supported, refs)
    ensures SupportingSources(Some(q)) != {} && SupportingSources(Some(q)) <= SourcesOf(Some(q))
  {
    SupportedHasSources(q);
    var s :| s in q.evidence && s.origin.Observed? && s.relation.Supports? && InScope(q, s);
    assert s.sourceId in SupportingSources(Some(q));
  }

  lemma {:induction false} DistinctAgentsCount(backers: set<PeerReview>)
    requires forall r, q :: r in backers && q in backers && r != q ==> r.reviewer != q.reviewer
    ensures |Agents(backers)| == |backers|
    decreases |backers|
  {
    if backers != {} {
      var r :| r in backers;
      DistinctAgentsCount(backers - {r});
      assert backers == (backers - {r}) + {r};
      assert Agents(backers) == Agents(backers - {r}) + {r.reviewer};
    }
  }

  lemma {:induction false} DisjointSourcesCount(table: map<PeerReview, set<Id>>, backers: set<PeerReview>)
    requires backers <= table.Keys && forall r :: r in backers ==> table[r] != {}
    requires forall r, q :: r in backers && q in backers && r != q ==> table[r] * table[q] == {}
    ensures |AllSources(table, backers)| >= |backers|
    decreases |backers|
  {
    if backers != {} {
      var r :| r in backers;
      var rest := backers - {r};
      DisjointSourcesCount(table, rest);
      assert backers == rest + {r};
      assert AllSources(table, backers) == AllSources(table, rest) + table[r];
      forall s | s in AllSources(table, rest) ensures s !in table[r] {
        var q :| q in rest && s in table[q];
        assert s !in table[q] * table[r];
      }
      assert AllSources(table, rest) !! table[r];
      assert |table[r]| >= 1;
    }
  }

  lemma BackerSupports(c: Collab, r: PeerReview)
    requires SoundBacker(c, r)
    ensures SupportingSources(r.request) != {} && SupportingSources(r.request) <= ReviewSources(r)
  {
    SupportIsObserved(r.request.value, r.refs);
  }

  lemma DisjointStays(a: set<Id>, b: set<Id>, x: set<Id>, y: set<Id>)
    requires a <= x && b <= y && x * y == {}
    ensures a * b == {}
  {
    assert a * b <= x * y;
  }

  lemma IndependentCounts(c: Collab, backers: set<PeerReview>)
    requires IndependentlyBacked(c, backers) && c.verdict.Supported? && CanonicalProposal(c)
    ensures |Agents(backers) + {c.author}| == |backers| + 1
    ensures |AllSources(SupportTable(backers), backers) + SupportingSources(c.request)| >= |backers| + 1
  {
    var table := SupportTable(backers);
    DistinctAgentsCount(backers);
    assert c.author !in Agents(backers);
    forall r | r in backers ensures table[r] != {} && table[r] * SupportingSources(c.request) == {} {
      BackerSupports(c, r);
      SupportIsObserved(c.request.value, c.refs);
      DisjointStays(table[r], SupportingSources(c.request), ReviewSources(r), ProposalSources(c));
    }
    forall r, q | r in backers && q in backers && r != q ensures table[r] * table[q] == {} {
      BackerSupports(c, r);
      BackerSupports(c, q);
      DisjointStays(table[r], table[q], ReviewSources(r), ReviewSources(q));
    }
    DisjointSourcesCount(table, backers);
    SupportIsObserved(c.request.value, c.refs);
    OneMoreSource(table, backers, SupportingSources(c.request));
  }

  lemma OneMoreSource(table: map<PeerReview, set<Id>>, backers: set<PeerReview>, own: set<Id>)
    requires backers <= table.Keys && own != {} && forall r :: r in backers ==> table[r] * own == {}
    ensures |AllSources(table, backers) + own| >= |AllSources(table, backers)| + 1
  {
    var union := AllSources(table, backers);
    forall s | s in union ensures s !in own {
      var r :| r in backers && s in table[r];
      assert s !in table[r] * own;
    }
    assert union !! own;
    assert |own| >= 1;
  }

  // ACCEPT with quorum q means at least q + 1 distinct agents and at least
  // q + 1 distinct sources that each observed something in scope supporting the
  // claim: one behind each supporter and one behind the proposal.
  lemma AcceptedCounts(c: Collab)
    requires DispositionOf(c) == Accept
    ensures |Agents(Supporting(c)) + {c.author}| >= c.quorum + 1
    ensures |AllSources(SupportTable(Supporting(c)), Supporting(c)) + SupportingSources(c.request)| >= c.quorum + 1
  {
    AcceptedIsIndependentlyBacked(c);
    IndependentCounts(c, Supporting(c));
  }

  // ---------- what cannot influence the outcome ----------

  lemma SameEligible(c: Collab, d: Collab)
    requires d == c.(reviews := d.reviews) && Relevant(d) == Relevant(c)
    ensures Eligible(d) == Eligible(c) && ProposalSources(d) == ProposalSources(c)
    ensures CanonicalProposal(d) <==> CanonicalProposal(c)
  {
  }

  lemma SameBacked(c: Collab, d: Collab)
    requires Eligible(d) == Eligible(c) && ProposalSources(d) == ProposalSources(c)
    ensures Backed(d) == Backed(c)
  {
    forall r ensures CommonMode(d, r) <==> CommonMode(c, r) { }
  }

  // Permuting the reviews, and adding or removing self-reviews and reviews of
  // other goals or proposals, changes neither the disposition nor which reviews
  // support or dissent.
  lemma IrrelevantReviewsInvariance(c: Collab, reviews: seq<PeerReview>)
    requires forall r :: Structural(c, r) ==> (r in reviews <==> r in c.reviews)
    ensures var d := c.(reviews := reviews);
            DispositionOf(d) == DispositionOf(c) && Supporting(d) == Supporting(c) && Dissenting(d) == Dissenting(c)
  {
    SameRelevant(c, reviews);
    SameOutcome(c, c.(reviews := reviews));
  }

  lemma SameRelevant(c: Collab, reviews: seq<PeerReview>)
    requires forall r :: Structural(c, r) ==> (r in reviews <==> r in c.reviews)
    ensures Relevant(c.(reviews := reviews)) == Relevant(c)
  {
    forall r ensures Structural(c.(reviews := reviews), r) <==> Structural(c, r) { }
  }

  lemma SameOutcome(c: Collab, d: Collab)
    requires d == c.(reviews := d.reviews) && Relevant(d) == Relevant(c)
    ensures DispositionOf(d) == DispositionOf(c) && Supporting(d) == Supporting(c) && Dissenting(d) == Dissenting(c)
  {
    SameEligible(c, d);
    SameBacked(c, d);
    SameDecision(c, d);
  }

  lemma SameDecision(c: Collab, d: Collab)
    requires d == c.(reviews := d.reviews) && (CanonicalProposal(d) <==> CanonicalProposal(c))
    ensures forall repeated, refuting, contesting, backed, n ::
      Decide(d, repeated, refuting, contesting, backed, n) == Decide(c, repeated, refuting, contesting, backed, n)
  {
  }
}
