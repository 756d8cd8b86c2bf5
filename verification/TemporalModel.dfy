// Temporal frames over world states, of brain/temporal_world_model.py: the
// lineage check and the belief transitions derived from adjacent frames.
module TemporalModel {
  import opened Foundation
  import opened WorldState
  import opened WorldStateChains

  datatype Frame = Frame(frameId: Id, position: nat, state: Snapshot)

  datatype Fault =
    | DuplicateFrame | DuplicateSnapshot | GoalMismatch | AgentMismatch | PositionsMustIncrease
    | NotExactLineage | PropositionVanished | PropositionRewritten | HistoryRewritten

  // ----- One frame after another -----

  function BeliefsError(current: map<Id, Belief>, previous: seq<Belief>): Option<Fault> {
    if |previous| == 0 then None
    else
      var n := |previous| - 1;
      match BeliefsError(current, previous[..n])
      case Some(e) => Some(e)
      case None =>
        var was := previous[n];
        if was.proposition.id !in current then Some(PropositionVanished)
        else if current[was.proposition.id].proposition != was.proposition then Some(PropositionRewritten)
        else if !(was.revisions <= current[was.proposition.id].revisions) then Some(HistoryRewritten)
        else None
  }

  function LinkError(prev: Snapshot, next: Snapshot): Option<Fault> {
    if next.previousSnapshotId != Some(prev.snapshotId) then Some(NotExactLineage)
    else BeliefsError(BeliefsById(next.beliefs), prev.beliefs)
  }

  predicate Linked(prev: Snapshot, next: Snapshot) {
    next.previousSnapshotId == Some(prev.snapshotId) && Extends(prev, next)
  }

  lemma {:induction false} BeliefsErrorIff(next: Snapshot, previous: seq<Belief>)
    ensures BeliefsError(BeliefsById(next.beliefs), previous).None? <==>
      forall i :: 0 <= i < |previous| ==>
        var now := BeliefOf(next, previous[i].proposition.id);
        now.Some? && now.value.proposition == previous[i].proposition && previous[i].revisions <= now.value.revisions
  {
    var n := |previous| - 1;
    if n >= 0 {
      BeliefsErrorIff(next, previous[..n]);
      assert forall i :: 0 <= i < n ==> previous[..n][i] == previous[i];
    }
  }

  lemma LinkErrorIff(prev: Snapshot, next: Snapshot)
    ensures LinkError(prev, next).None? <==> Linked(prev, next)
  {
    BeliefsErrorIff(next, prev.beliefs);
  }

  // ----- The whole lineage -----

  function FrameIds(fs: seq<Frame>): (r: seq<Id>)
    ensures |r| == |fs|
  {
    seq(|fs|, i requires 0 <= i < |fs| => fs[i].frameId)
  }

  function StateIds(fs: seq<Frame>): (r: seq<Id>)
    ensures |r| == |fs|
  {
    seq(|fs|, i requires 0 <= i < |fs| => fs[i].state.snapshotId)
  }

  function FrameError(before: seq<Frame>, f: Frame, goalId: Id, agent: Agent): Option<Fault> {
    if f.frameId in FrameIds(before) then Some(DuplicateFrame)
    else if f.state.snapshotId in StateIds(before) then Some(DuplicateSnapshot)
    else if f.state.goalId != goalId then Some(GoalMismatch)
    else if f.state.agent != agent then Some(AgentMismatch)
    else if |before| == 0 then None
    else if f.position <= before[|before| - 1].position then Some(PositionsMustIncrease)
    else LinkError(before[|before| - 1].state, f.state)
  }

  function LineageError(fs: seq<Frame>, goalId: Id, agent: Agent): Option<Fault> {
    if |fs| == 0 then None
    else match LineageError(fs[..|fs| - 1], goalId, agent)
      case Some(e) => Some(e)
      case None => FrameError(fs[..|fs| - 1], fs[|fs| - 1], goalId, agent)
  }

  method ValidateFrameLineage(fs: seq<Frame>, goalId: Id, agent: Agent) returns (error: Option<Fault>)
    ensures error == LineageError(fs, goalId, agent)
    ensures error.None? <==> IsLineage(fs, goalId, agent)
    ensures error.Some? ==> FirstFault(fs, goalId, agent, error.value)
  {
    LineageErrorIff(fs, goalId, agent);
    LineageErrorMeans(fs, goalId, agent);
    var frameIds, snapshotIds: set<Id> := {}, {};
    var previous: Option<Frame> := None;
    var i := 0;
    while i < |fs|
      invariant 0 <= i <= |fs|
      invariant LineageError(fs[..i], goalId, agent).None?
      invariant Seen(fs[..i], frameIds, snapshotIds, previous)
    {
      FrameStep(fs, goalId, agent, i, frameIds, snapshotIds, previous);
      error := CheckFrame(fs[..i], frameIds, snapshotIds, previous, fs[i], goalId, agent);
      if error.Some? { return; }
      frameIds := frameIds + {fs[i].frameId};
      snapshotIds := snapshotIds + {fs[i].state.snapshotId};
      previous := Some(fs[i]);
      i := i + 1;
    }
    assert fs[..|fs|] == fs;
    error := None;
  }

  ghost predicate Seen(before: seq<Frame>, frameIds: set<Id>, snapshotIds: set<Id>, previous: Option<Frame>) {
    && frameIds == Elems(FrameIds(before)) && snapshotIds == Elems(StateIds(before))
    && previous == if |before| == 0 then None else Some(before[|before| - 1])
  }

  lemma FrameStep(fs: seq<Frame>, goalId: Id, agent: Agent, i: nat, frameIds: set<Id>, snapshotIds: set<Id>,
                  previous: Option<Frame>)
    requires i < |fs| && LineageError(fs[..i], goalId, agent).None? && Seen(fs[..i], frameIds, snapshotIds, previous)
    ensures var e := FrameError(fs[..i], fs[i], goalId, agent);
      && (e.Some? ==> LineageError(fs, goalId, agent) == e)
      && (e.None? ==> LineageError(fs[..i + 1], goalId, agent).None?)
    ensures Seen(fs[..i + 1], frameIds + {fs[i].frameId}, snapshotIds + {fs[i].state.snapshotId}, Some(fs[i]))
  {
    LineagePrefix(fs, goalId, agent, i + 1);
    assert fs[..i + 1][..i] == fs[..i];
    SeenStep(fs[..i], frameIds, snapshotIds, previous, fs[i]);
    assert fs[..i + 1] == fs[..i] + [fs[i]];
  }

  lemma SeenStep(before: seq<Frame>, frameIds: set<Id>, snapshotIds: set<Id>, previous: Option<Frame>, f: Frame)
    requires Seen(before, frameIds, snapshotIds, previous)
    ensures Seen(before + [f], frameIds + {f.frameId}, snapshotIds + {f.state.snapshotId}, Some(f))
  {
    assert FrameIds(before + [f]) == FrameIds(before) + [f.frameId];
    assert StateIds(before + [f]) == StateIds(before) + [f.state.snapshotId];
  }

  method CheckFrame(ghost before: seq<Frame>, frameIds: set<Id>, snapshotIds: set<Id>, previous: Option<Frame>,
                    f: Frame, goalId: Id, agent: Agent) returns (error: Option<Fault>)
    requires Seen(before, frameIds, snapshotIds, previous)
    ensures error == FrameError(before, f, goalId, agent)
  {
    if f.frameId in frameIds { return Some(DuplicateFrame); }
    if f.state.snapshotId in snapshotIds { return Some(DuplicateSnapshot); }
    if f.state.goalId != goalId { return Some(GoalMismatch); }
    if f.state.agent != agent { return Some(AgentMismatch); }
    if previous.None? { return None; }
    if f.position <= previous.value.position { return Some(PositionsMustIncrease); }
    error := CheckLink(previous.value.state, f.state);
  }

  method CheckLink(prev: Snapshot, next: Snapshot) returns (error: Option<Fault>)
    ensures error == LinkError(prev, next)
  {
    if next.previousSnapshotId != Some(prev.snapshotId) { return Some(NotExactLineage); }
    var current := BeliefsById(next.beliefs);
    var i := 0;
    while i < |prev.beliefs|
      invariant 0 <= i <= |prev.beliefs|
      invariant BeliefsError(current, prev.beliefs[..i]).None?
    {
      var was := prev.beliefs[i];
      BeliefsPrefix(current, prev.beliefs, i + 1);
      assert prev.beliefs[..i + 1][..i] == prev.beliefs[..i];
      if was.proposition.id !in current { return Some(PropositionVanished); }
      var now := current[was.proposition.id];
      if now.proposition != was.proposition { return Some(PropositionRewritten); }
      if !(was.revisions <= now.revisions) { return Some(HistoryRewritten); }
      i := i + 1;
    }
    assert prev.beliefs[..|prev.beliefs|] == prev.beliefs;
    error := None;
  }

  lemma {:induction false} BeliefsPrefix(current: map<Id, Belief>, bs: seq<Belief>, k: nat)
    requires k <= |bs|
    ensures BeliefsError(current, bs[..k]).Some? ==> BeliefsError(current, bs) == BeliefsError(current, bs[..k])
  {
    if k < |bs| {
      assert bs[..|bs| - 1][..k] == bs[..k];
      BeliefsPrefix(current, bs[..|bs| - 1], k);
    } else {
      assert bs[..k] == bs;
    }
  }

  lemma {:induction false} LineagePrefix(fs: seq<Frame>, goalId: Id, agent: Agent, k: nat)
    requires k <= |fs|
    ensures LineageError(fs[..k], goalId, agent).Some? ==>
      LineageError(fs, goalId, agent) == LineageError(fs[..k], goalId, agent)
  {
    if k < |fs| {
      assert fs[..|fs| - 1][..k] == fs[..k];
      LineagePrefix(fs[..|fs| - 1], goalId, agent, k);
    } else {
      assert fs[..k] == fs;
    }
  }

  // ----- What is accepted -----

  predicate Adjacent(fs: seq<Frame>, i: nat)
    requires 0 < i < |fs|
  {
    fs[i - 1].position < fs[i].position && Linked(fs[i - 1].state, fs[i].state)
  }

  predicate InScope(fs: seq<Frame>, goalId: Id, agent: Agent) {
    forall i :: 0 <= i < |fs| ==> fs[i].state.goalId == goalId && fs[i].state.agent == agent
  }

  predicate IsLineage(fs: seq<Frame>, goalId: Id, agent: Agent) {
    Distinct(FrameIds(fs)) && Distinct(StateIds(fs)) && InScope(fs, goalId, agent) && AllAdjacent(fs)
  }

  predicate AllAdjacent(fs: seq<Frame>) {
    forall i {:trigger Adjacent(fs, i)} :: 0 < i < |fs| ==> Adjacent(fs, i)
  }

  lemma AllAdjacentLast(fs: seq<Frame>)
    requires |fs| > 0
    ensures AllAdjacent(fs) <==> AllAdjacent(fs[..|fs| - 1]) && (|fs| > 1 ==> Adjacent(fs, |fs| - 1))
  {
    var n := |fs| - 1;
    assert forall i {:trigger Adjacent(fs, i)} :: 0 < i < n ==> Adjacent(fs, i) == Adjacent(fs[..n], i);
    assert forall i {:trigger Adjacent(fs[..n], i)} :: 0 < i < n ==> Adjacent(fs, i) == Adjacent(fs[..n], i);
  }

  lemma InScopeLast(fs: seq<Frame>, goalId: Id, agent: Agent)
    requires |fs| > 0
    ensures var n := |fs| - 1;
      InScope(fs, goalId, agent) <==>
        InScope(fs[..n], goalId, agent) && fs[n].state.goalId == goalId && fs[n].state.agent == agent
  {
    assert forall i :: 0 <= i < |fs| - 1 ==> fs[..|fs| - 1][i] == fs[i];
  }

  lemma DistinctIdsLast(fs: seq<Frame>)
    requires |fs| > 0
    ensures var n := |fs| - 1;
      Distinct(FrameIds(fs)) && Distinct(StateIds(fs)) <==>
        && Distinct(FrameIds(fs[..n])) && Distinct(StateIds(fs[..n]))
        && fs[n].frameId !in FrameIds(fs[..n]) && fs[n].state.snapshotId !in StateIds(fs[..n])
  {
    var n := |fs| - 1;
    DistinctLast(FrameIds(fs));
    DistinctLast(StateIds(fs));
    assert FrameIds(fs)[..n] == FrameIds(fs[..n]) && StateIds(fs)[..n] == StateIds(fs[..n]);
  }

  lemma {:induction false} LineageErrorIff(fs: seq<Frame>, goalId: Id, agent: Agent)
    ensures LineageError(fs, goalId, agent).None? <==> IsLineage(fs, goalId, agent)
  {
    var n := |fs| - 1;
    if n >= 0 {
      LineageErrorIff(fs[..n], goalId, agent);
      LineageLast(fs, goalId, agent);
      if n > 0 { LinkErrorIff(fs[n - 1].state, fs[n].state); }
    }
  }

  lemma LineageLast(fs: seq<Frame>, goalId: Id, agent: Agent)
    requires |fs| > 0
    ensures var n := |fs| - 1;
      IsLineage(fs, goalId, agent) <==>
        && IsLineage(fs[..n], goalId, agent)
        && fs[n].frameId !in FrameIds(fs[..n]) && fs[n].state.snapshotId !in StateIds(fs[..n])
        && fs[n].state.goalId == goalId && fs[n].state.agent == agent
        && (n > 0 ==> Adjacent(fs, n))
  {
    DistinctIdsLast(fs);
    InScopeLast(fs, goalId, agent);
    AllAdjacentLast(fs);
  }

  // What each fault says of a frame, given those before it.
  ghost predicate FaultOf(before: seq<Frame>, f: Frame, goalId: Id, agent: Agent, e: Fault) {
    match e
    case DuplicateFrame => exists g :: g in before && g.frameId == f.frameId
    case DuplicateSnapshot => exists g :: g in before && g.state.snapshotId == f.state.snapshotId
    case GoalMismatch => f.state.goalId != goalId
    case AgentMismatch => f.state.agent != agent
    case PositionsMustIncrease => before != [] && f.position <= before[|before| - 1].position
    case NotExactLineage => before != [] && f.state.previousSnapshotId != Some(before[|before| - 1].state.snapshotId)
    case _ => before != [] && exists was :: was in before[|before| - 1].state.beliefs && Loses(f.state, was, e)
  }

  // What each fault says of a belief of the state before.
  predicate Loses(next: Snapshot, was: Belief, e: Fault) {
    var now := BeliefOf(next, was.proposition.id);
    match e
    case PropositionVanished => now.None?
    case PropositionRewritten => now.Some? && now.value.proposition != was.proposition
    case HistoryRewritten => now.Some? && !(was.revisions <= now.value.revisions)
    case _ => false
  }

  // The frames before are a lineage, and the next one has that fault.
  ghost predicate FirstFault(fs: seq<Frame>, goalId: Id, agent: Agent, e: Fault) {
    exists i :: 0 <= i < |fs| && IsLineage(fs[..i], goalId, agent) && FaultOf(fs[..i], fs[i], goalId, agent, e)
  }

  lemma {:induction false} BeliefsErrorMeans(next: Snapshot, bs: seq<Belief>)
    ensures var e := BeliefsError(BeliefsById(next.beliefs), bs);
      e.Some? ==> exists was :: was in bs && Loses(next, was, e.value)
  {
    var n := |bs| - 1;
    if n >= 0 {
      BeliefsErrorMeans(next, bs[..n]);
      assert bs[n] in bs && forall b :: b in bs[..n] ==> b in bs;
    }
  }

  lemma FrameErrorMeans(before: seq<Frame>, f: Frame, goalId: Id, agent: Agent)
    ensures var e := FrameError(before, f, goalId, agent);
      e.Some? ==> FaultOf(before, f, goalId, agent, e.value)
  {
    if f.frameId in FrameIds(before) {
      var i :| 0 <= i < |before| && FrameIds(before)[i] == f.frameId;
      assert before[i] in before;
    } else if f.state.snapshotId in StateIds(before) {
      var i :| 0 <= i < |before| && StateIds(before)[i] == f.state.snapshotId;
      assert before[i] in before;
    } else if before != [] {
      BeliefsErrorMeans(f.state, before[|before| - 1].state.beliefs);
    }
  }

  lemma {:induction false} LineageErrorMeans(fs: seq<Frame>, goalId: Id, agent: Agent)
    ensures var e := LineageError(fs, goalId, agent);
      e.Some? ==> FirstFault(fs, goalId, agent, e.value)
  {
    var n := |fs| - 1;
    if n >= 0 && LineageError(fs, goalId, agent).Some? {
      if LineageError(fs[..n], goalId, agent).Some? {
        LineageErrorMeans(fs[..n], goalId, agent);
        FaultStays(fs, goalId, agent, LineageError(fs, goalId, agent).value);
      } else {
        LineageErrorIff(fs[..n], goalId, agent);
        FrameErrorMeans(fs[..n], fs[n], goalId, agent);
      }
    }
  }

  lemma FaultStays(fs: seq<Frame>, goalId: Id, agent: Agent, e: Fault)
    requires |fs| > 0 && FirstFault(fs[..|fs| - 1], goalId, agent, e)
    ensures FirstFault(fs, goalId, agent, e)
  {
    var before := fs[..|fs| - 1];
    var i :| 0 <= i < |before| && IsLineage(before[..i], goalId, agent)
      && FaultOf(before[..i], before[i], goalId, agent, e);
    assert before[..i] == fs[..i] && before[i] == fs[i];
  }

  predicate Frames(fs: seq<Frame>, ss: seq<Snapshot>) {
    |fs| == |ss| && forall i :: 0 <= i < |fs| ==> fs[i].state == ss[i]
  }

  predicate PositionsIncrease(fs: seq<Frame>) {
    forall i, j :: 0 <= i < |fs| && j == i + 1 && j < |fs| ==> fs[i].position < fs[j].position
  }

  lemma LinkLinks(rs: seq<Request>, ss: seq<Snapshot>, i: nat)
    requires IsChain(rs, ss) && 0 < i < |rs|
    ensures Linked(ss[i - 1], ss[i])
    ensures ss[i].goalId == ss[i - 1].goalId && ss[i].agent == ss[i - 1].agent
  {
    assert Link(rs, ss, i);
    BuildExtends(rs[i]);
  }

  lemma {:induction false} ChainScope(rs: seq<Request>, ss: seq<Snapshot>, i: nat)
    requires IsChain(rs, ss) && i < |rs|
    ensures ss[i].goalId == ss[0].goalId && ss[i].agent == ss[0].agent
  {
    if i > 0 {
      LinkLinks(rs, ss, i);
      ChainScope(rs, ss, i - 1);
    }
  }

  // Whatever a chain of builds produced, the lineage check accepts it under
  // any distinct frame ids and increasing positions, if and only if no
  // snapshot id was used twice: the request checks only the one before.
  lemma ChainAcceptedIff(rs: seq<Request>, ss: seq<Snapshot>, fs: seq<Frame>)
    requires IsChain(rs, ss) && |ss| > 0 && Frames(fs, ss)
    ensures LineageError(fs, ss[0].goalId, ss[0].agent).None? <==>
      Distinct(FrameIds(fs)) && Distinct(SnapshotIds(ss)) && PositionsIncrease(fs)
  {
    LineageErrorIff(fs, ss[0].goalId, ss[0].agent);
    assert StateIds(fs) == SnapshotIds(ss);
    forall i | 0 <= i < |fs| ensures fs[i].state.goalId == ss[0].goalId && fs[i].state.agent == ss[0].agent {
      ChainScope(rs, ss, i);
    }
    forall i | 0 < i < |fs| ensures Adjacent(fs, i) <==> fs[i - 1].position < fs[i].position {
      LinkLinks(rs, ss, i);
    }
    if PositionsIncrease(fs) {
      forall i {:trigger Adjacent(fs, i)} | 0 < i < |fs| ensures Adjacent(fs, i) {
        var h := i - 1;
        assert fs[h].position < fs[i].position;
      }
    }
    if IsLineage(fs, ss[0].goalId, ss[0].agent) {
      forall i, j | 0 <= i < |fs| && j == i + 1 && j < |fs| ensures fs[i].position < fs[j].position {
        assert Adjacent(fs, j);
      }
    }
  }

  // With distinct frame ids and increasing positions a repeated snapshot id is
  // the only fault the frames of a chain can have.
  lemma {:induction false} ChainRefusal(rs: seq<Request>, ss: seq<Snapshot>, fs: seq<Frame>, k: nat)
    requires IsChain(rs, ss) && |ss| > 0 && Frames(fs, ss) && k <= |fs|
    requires Distinct(FrameIds(fs)) && PositionsIncrease(fs)
    ensures LineageError(fs[..k], ss[0].goalId, ss[0].agent) in {None, Some(DuplicateSnapshot)}
  {
    if k > 0 {
      ChainRefusal(rs, ss, fs, k - 1);
      assert fs[..k][..k - 1] == fs[..k - 1];
      OneFrameMore(rs, ss, fs, k - 1);
    }
  }

  lemma OneFrameMore(rs: seq<Request>, ss: seq<Snapshot>, fs: seq<Frame>, k: nat)
    requires IsChain(rs, ss) && Frames(fs, ss) && k < |fs|
    requires Distinct(FrameIds(fs)) && PositionsIncrease(fs)
    ensures FrameError(fs[..k], fs[k], ss[0].goalId, ss[0].agent) in {None, Some(DuplicateSnapshot)}
  {
    assert FrameIds(fs[..k]) == FrameIds(fs)[..k];
    assert FrameIds(fs)[k] !in FrameIds(fs)[..k];
    ChainScope(rs, ss, k);
    if k > 0 {
      LinkLinks(rs, ss, k);
      LinkErrorIff(fs[k - 1].state, fs[k].state);
      var h := k - 1;
      assert fs[..k][h] == fs[h] && fs[h].position < fs[k].position;
    }
  }

  // ----- A chain that is refused: snapshots A, B, A -----

  function Carrying(snapshotId: Id, previous: Option<Snapshot>): Request {
    Request(snapshotId, "g", Cmo, [EXAMPLE_CLAIM], [], previous)
  }

  // A snapshot about the one claim of the example.
  predicate AboutClaim(s: Snapshot) {
    && ValidSnapshot(s) && s.goalId == "g" && s.agent == Cmo
    && |s.beliefs| == 1 && s.beliefs[0].proposition == EXAMPLE_CLAIM
  }

  lemma CarryingIsAccepted(r: Request)
    requires r == Carrying(r.snapshotId, r.previousState)
    requires r.previousState.Some? ==>
      AboutClaim(r.previousState.value) && r.previousState.value.snapshotId != r.snapshotId
    ensures RequestError(r).None?
  {
    PropositionErrorIff(r, r.propositions);
    if r.previousState.Some? {
      var bs := r.previousState.value.beliefs;
      assert r.propositions[..0] == [] && bs[..0] == [];
      assert PropositionsById(r.propositions)[EXAMPLE_CLAIM.id] == EXAMPLE_CLAIM;
      assert ContinuityError(PropositionsById(r.propositions), bs).None?;
    }
  }

  lemma CarryingBuilds(snapshotId: Id, previous: Option<Snapshot>)
    requires previous.Some? ==> AboutClaim(previous.value) && previous.value.snapshotId != snapshotId
    ensures Build(Carrying(snapshotId, previous)).Ok?
    ensures var s := Build(Carrying(snapshotId, previous)).value;
      AboutClaim(s) && s.snapshotId == snapshotId
  {
    var r := Carrying(snapshotId, previous);
    CarryingIsAccepted(r);
    BuildSucceedsIff(r);
    BuildIsValid(r);
  }

  // Each request differs from its predecessor only, so the chain is built; its
  // frames are refused for the snapshot id used twice.
  lemma RepeatedSnapshotIsRefused() returns (rs: seq<Request>, ss: seq<Snapshot>, fs: seq<Frame>)
    ensures IsChain(rs, ss) && FromScratch(rs) && SnapshotIds(ss) == ["A", "B", "A"]
    ensures Frames(fs, ss) && Distinct(FrameIds(fs)) && PositionsIncrease(fs)
    ensures LineageError(fs, "g", Cmo) == Some(DuplicateSnapshot)
  {
    rs, ss := BuildThree();
    fs := [Frame("x", 0, ss[0]), Frame("y", 1, ss[1]), Frame("z", 2, ss[2])];
    assert FrameIds(fs) == ["x", "y", "z"];
    assert SnapshotIds(ss)[0] == SnapshotIds(ss)[2];
    ChainAcceptedIff(rs, ss, fs);
    ChainRefusal(rs, ss, fs, 3);
    assert fs[..3] == fs;
  }

  lemma BuildThree() returns (rs: seq<Request>, ss: seq<Snapshot>)
    ensures IsChain(rs, ss) && FromScratch(rs) && |ss| == 3 && SnapshotIds(ss) == ["A", "B", "A"]
    ensures ss[0].goalId == "g" && ss[0].agent == Cmo
  {
    CarryingBuilds("A", None);
    var s0 := Build(Carrying("A", None)).value;
    CarryingBuilds("B", Some(s0));
    var s1 := Build(Carrying("B", Some(s0))).value;
    CarryingBuilds("A", Some(s1));
    var s2 := Build(Carrying("A", Some(s1))).value;
    rs, ss := [Carrying("A", None), Carrying("B", Some(s0)), Carrying("A", Some(s1))], [s0, s1, s2];
    assert Link(rs, ss, 0) && Link(rs, ss, 1) && Link(rs, ss, 2);
    assert SnapshotIds(ss) == ["A", "B", "A"];
  }
}
