// The belief transitions derived from adjacent temporal frames, and the replay
// of that log over the first frame.
module Transitions {
  import opened Foundation
  import opened WorldState
  import opened WorldStateChains
  import opened TemporalModel

  datatype ChangeKind =
    | Stable | EvidenceUpdated | BecameEstablished | BecameContested | BecameRefuted | BecameUnknown | Added

  datatype Transition = Transition(
    transitionId: string, propositionId: Id, fromSnapshot: Id, toSnapshot: Id,
    fromStatus: Option<BeliefStatus>, toStatus: BeliefStatus, kind: ChangeKind,
    newSupporting: seq<Id>, newContradicting: seq<Id>)

  // The references not there before, in order.
  function NewRefs(current: seq<Id>, previous: seq<Id>): seq<Id> {
    Keep(current, Elems(current) - Elems(previous))
  }

  function StatusChange(s: BeliefStatus): ChangeKind {
    match s
    case Established => BecameEstablished
    case Contested => BecameContested
    case Refuted => BecameRefuted
    case Unknown => BecameUnknown
  }

  function KindOf(previous: Option<Belief>, current: Belief, newSupport: seq<Id>, newContradict: seq<Id>): ChangeKind {
    if previous.None? then Added
    else if current.status != previous.value.status then StatusChange(current.status)
    else if |newSupport| > 0 || |newContradict| > 0 then EvidenceUpdated
    else Stable
  }

  function TransitionOf(fromId: Id, toId: Id, previous: Option<Belief>, current: Belief): Transition {
    var support := NewRefs(current.supporting, match previous case Some(b) => b.supporting case None => []);
    var contradict := NewRefs(current.contradicting, match previous case Some(b) => b.contradicting case None => []);
    Transition(fromId + "->" + toId + ":" + current.proposition.id, current.proposition.id, fromId, toId,
               match previous case Some(b) => Some(b.status) case None => None, current.status,
               KindOf(previous, current, support, contradict), support, contradict)
  }

  // The transitions into the beliefs bs of the next state.
  function Between(prev: Snapshot, toId: Id, bs: seq<Belief>): (r: seq<Transition>)
    ensures |r| == |bs|
  {
    seq(|bs|, i requires 0 <= i < |bs| =>
      TransitionOf(prev.snapshotId, toId, BeliefOf(prev, bs[i].proposition.id), bs[i]))
  }

  function Derive(fs: seq<Frame>): seq<Transition> {
    if |fs| < 2 then []
    else
      var n := |fs| - 1;
      Derive(fs[..n]) + Between(fs[n - 1].state, fs[n].state.snapshotId, fs[n].state.beliefs)
  }

  method DeriveTransitions(fs: seq<Frame>) returns (ts: seq<Transition>)
    ensures ts == Derive(fs)
  {
    ts := [];
    if |fs| < 2 { return; }
    var i := 1;
    while i < |fs|
      invariant 1 <= i <= |fs|
      invariant ts == Derive(fs[..i])
    {
      var added := TransitionsInto(fs[i - 1].state, fs[i].state);
      assert fs[..i + 1][..i] == fs[..i];
      ts := ts + added;
      i := i + 1;
    }
    assert fs[..|fs|] == fs;
  }

  method TransitionsInto(prev: Snapshot, next: Snapshot) returns (ts: seq<Transition>)
    ensures ts == Between(prev, next.snapshotId, next.beliefs)
  {
    ts := [];
    var previous := BeliefsById(prev.beliefs);
    for i := 0 to |next.beliefs|
      invariant ts == Between(prev, next.snapshotId, next.beliefs[..i])
    {
      var b := next.beliefs[i];
      ts := ts + [TransitionOf(prev.snapshotId, next.snapshotId, Lookup(previous, b.proposition.id), b)];
      assert Between(prev, next.snapshotId, next.beliefs[..i + 1])
          == Between(prev, next.snapshotId, next.beliefs[..i])
             + [TransitionOf(prev.snapshotId, next.snapshotId, BeliefOf(prev, b.proposition.id), b)];
    }
    assert next.beliefs[..|next.beliefs|] == next.beliefs;
  }

  // ----- What a transition says -----

  // Each kind, in the two statuses and whether a reference is new.
  predicate KindSays(kind: ChangeKind, from: Option<BeliefStatus>, to: BeliefStatus, cites: bool) {
    && (kind == Added <==> from.None?)
    && (kind == BecameEstablished <==> from.Some? && from.value != to && to == Established)
    && (kind == BecameContested <==> from.Some? && from.value != to && to == Contested)
    && (kind == BecameRefuted <==> from.Some? && from.value != to && to == Refuted)
    && (kind == BecameUnknown <==> from.Some? && from.value != to && to == Unknown)
    && (kind == EvidenceUpdated <==> from == Some(to) && cites)
    && (kind == Stable <==> from == Some(to) && !cites)
  }

  // The references of the current belief that the previous one lacks, in order.
  ghost predicate AreNew(refs: seq<Id>, current: seq<Id>, previous: seq<Id>) {
    && (forall id :: id in refs <==> id in current && id !in previous)
    && (Distinct(current) ==> InOrderOf(current, refs))
  }

  ghost predicate Describes(t: Transition, prev: Snapshot, next: Snapshot, now: Belief) {
    var id, was := now.proposition.id, BeliefOf(prev, now.proposition.id);
    && t.propositionId == id && t.fromSnapshot == prev.snapshotId && t.toSnapshot == next.snapshotId
    && t.transitionId == prev.snapshotId + "->" + next.snapshotId + ":" + id
    && t.toStatus == now.status
    && (match was case Some(b) => t.fromStatus == Some(b.status) case None => t.fromStatus == None)
    && AreNew(t.newSupporting, now.supporting, match was case Some(b) => b.supporting case None => [])
    && AreNew(t.newContradicting, now.contradicting, match was case Some(b) => b.contradicting case None => [])
    && KindSays(t.kind, t.fromStatus, t.toStatus, t.newSupporting != [] || t.newContradicting != [])
  }

  lemma NewRefsAreNew(current: seq<Id>, previous: seq<Id>)
    ensures AreNew(NewRefs(current, previous), current, previous)
  {
    KeepMembers(current, Elems(current) - Elems(previous));
    if Distinct(current) { KeepInOrder(current, Elems(current) - Elems(previous)); }
  }

  // One transition for each belief of the next state, in order, and what each
  // of its fields says about the two beliefs.
  lemma TransitionsDescribe(prev: Snapshot, next: Snapshot, i: nat)
    requires i < |next.beliefs|
    ensures Describes(Between(prev, next.snapshotId, next.beliefs)[i], prev, next, next.beliefs[i])
  {
    var was, now := BeliefOf(prev, next.beliefs[i].proposition.id), next.beliefs[i];
    NewRefsAreNew(now.supporting, match was case Some(b) => b.supporting case None => []);
    NewRefsAreNew(now.contradicting, match was case Some(b) => b.contradicting case None => []);
  }

  // ----- Replay -----

  // Each proposition's status in a snapshot.
  function StatusMap(s: Snapshot): map<Id, BeliefStatus> {
    var m := BeliefsById(s.beliefs);
    map id | id in m :: m[id].status
  }

  function Replay(m: map<Id, BeliefStatus>, ts: seq<Transition>): map<Id, BeliefStatus> {
    if |ts| == 0 then m
    else Replay(m, ts[..|ts| - 1])[ts[|ts| - 1].propositionId := ts[|ts| - 1].toStatus]
  }

  lemma {:induction false} ReplayAppend(m: map<Id, BeliefStatus>, a: seq<Transition>, b: seq<Transition>)
    ensures Replay(m, a + b) == Replay(Replay(m, a), b)
  {
    if |b| == 0 {
      assert a + b == a;
    } else {
      var n := |b| - 1;
      assert (a + b)[..|a + b| - 1] == a + b[..n];
      ReplayAppend(m, a, b[..n]);
    }
  }

  // Replaying into the first k beliefs touches exactly those propositions.
  lemma {:induction false} ReplayInto(m: map<Id, BeliefStatus>, prev: Snapshot, next: Snapshot, k: nat)
    requires Distinct(BeliefIds(next.beliefs)) && k <= |next.beliefs|
    ensures var r := Replay(m, Between(prev, next.snapshotId, next.beliefs)[..k]);
      && (forall i :: 0 <= i < k ==> Lookup(r, next.beliefs[i].proposition.id) == Some(next.beliefs[i].status))
      && (forall id :: id !in BeliefIds(next.beliefs)[..k] ==> Lookup(r, id) == Lookup(m, id))
  {
    var ts, ids := Between(prev, next.snapshotId, next.beliefs), BeliefIds(next.beliefs);
    if k > 0 {
      ReplayInto(m, prev, next, k - 1);
      assert ts[..k][..k - 1] == ts[..k - 1];
      assert ids[..k] == ids[..k - 1] + [ids[k - 1]];
      forall i | 0 <= i < k - 1 ensures next.beliefs[i].proposition.id != next.beliefs[k - 1].proposition.id {
        assert ids[i] != ids[k - 1];
      }
    }
  }

  lemma StatusMapAt(s: Snapshot, id: Id)
    requires Distinct(BeliefIds(s.beliefs))
    ensures id in StatusMap(s) <==> id in BeliefIds(s.beliefs)
    ensures forall i :: 0 <= i < |s.beliefs| && s.beliefs[i].proposition.id == id ==>
      Lookup(StatusMap(s), id) == Some(s.beliefs[i].status)
  {
    BeliefsByIdAt(s.beliefs, id);
    forall i | 0 <= i < |s.beliefs| && s.beliefs[i].proposition.id == id
      ensures Lookup(StatusMap(s), id) == Some(s.beliefs[i].status)
    {
      DistinctIdsAgree(s.beliefs, i);
    }
  }

  lemma LinkedKeepsId(prev: Snapshot, next: Snapshot, id: Id)
    requires Linked(prev, next)
    ensures id in BeliefIds(prev.beliefs) ==> id in BeliefIds(next.beliefs)
  {
    BeliefsByIdAt(next.beliefs, id);
    forall i | 0 <= i < |prev.beliefs| && BeliefIds(prev.beliefs)[i] == id ensures id in BeliefIds(next.beliefs) {
      assert BeliefOf(next, prev.beliefs[i].proposition.id).Some?;
    }
  }

  // One step: the transitions between two linked states carry the first
  // state's map to the second's.
  lemma ReplayLinked(prev: Snapshot, next: Snapshot)
    requires Distinct(BeliefIds(prev.beliefs)) && Distinct(BeliefIds(next.beliefs)) && Linked(prev, next)
    ensures Replay(StatusMap(prev), Between(prev, next.snapshotId, next.beliefs)) == StatusMap(next)
  {
    var ts := Between(prev, next.snapshotId, next.beliefs);
    var r, ids := Replay(StatusMap(prev), ts), BeliefIds(next.beliefs);
    ReplayInto(StatusMap(prev), prev, next, |ts|);
    assert ts[..|ts|] == ts && ids[..|ts|] == ids;
    forall id ensures Lookup(r, id) == Lookup(StatusMap(next), id) {
      StatusMapAt(prev, id);
      StatusMapAt(next, id);
      LinkedKeepsId(prev, next, id);
      if id in ids {
        var i :| 0 <= i < |ids| && ids[i] == id;
        assert next.beliefs[i].proposition.id == id;
      }
    }
    SameLookups(r, StatusMap(next));
  }

  lemma SameLookups<V>(a: map<Id, V>, b: map<Id, V>)
    requires forall id :: Lookup(a, id) == Lookup(b, id)
    ensures a == b
  {
    forall id ensures id in a <==> id in b {
      assert Lookup(a, id) == Lookup(b, id);
    }
    forall id | id in a ensures a[id] == b[id] {
      assert Lookup(a, id) == Lookup(b, id);
    }
  }

  ghost predicate ValidFrames(fs: seq<Frame>) {
    forall i :: 0 <= i < |fs| ==> ValidSnapshot(fs[i].state)
  }

  // So it is for the frames of any chain of builds.
  lemma ChainFramesAreValid(rs: seq<Request>, ss: seq<Snapshot>, fs: seq<Frame>)
    requires IsChain(rs, ss) && Frames(fs, ss)
    ensures ValidFrames(fs)
  {
    forall i | 0 <= i < |fs| ensures ValidSnapshot(fs[i].state) {
      assert Link(rs, ss, i);
      BuildIsValid(rs[i]);
    }
  }

  lemma ReplayOneMore(m: map<Id, BeliefStatus>, log: seq<Transition>, prev: Snapshot, next: Snapshot)
    requires ValidSnapshot(prev) && ValidSnapshot(next) && Linked(prev, next)
    requires Replay(m, log) == StatusMap(prev)
    ensures Replay(m, log + Between(prev, next.snapshotId, next.beliefs)) == StatusMap(next)
  {
    ReplayAppend(m, log, Between(prev, next.snapshotId, next.beliefs));
    ReplayLinked(prev, next);
  }

  lemma DeriveSnoc(fs: seq<Frame>, k: nat)
    requires 0 < k < |fs|
    ensures Derive(fs[..k + 1])
         == Derive(fs[..k]) + Between(fs[k - 1].state, fs[k].state.snapshotId, fs[k].state.beliefs)
  {
    assert fs[..k + 1][..k] == fs[..k];
  }

  // Folding the derived log over the first frame reproduces every later frame.
  lemma {:induction false} ReplayReproduces(fs: seq<Frame>, goalId: Id, agent: Agent, k: nat)
    requires ValidFrames(fs) && LineageError(fs, goalId, agent).None? && k < |fs|
    ensures Replay(StatusMap(fs[0].state), Derive(fs[..k + 1])) == StatusMap(fs[k].state)
  {
    LineageErrorIff(fs, goalId, agent);
    ReplayLineage(fs, goalId, agent, k);
  }

  lemma {:induction false} ReplayLineage(fs: seq<Frame>, goalId: Id, agent: Agent, k: nat)
    requires ValidFrames(fs) && IsLineage(fs, goalId, agent) && k < |fs|
    ensures Replay(StatusMap(fs[0].state), Derive(fs[..k + 1])) == StatusMap(fs[k].state)
  {
    if k > 0 {
      ReplayLineage(fs, goalId, agent, k - 1);
      assert Adjacent(fs, k);
      DeriveSnoc(fs, k);
      assert fs[..k - 1 + 1] == fs[..k];
      ReplayOneMore(StatusMap(fs[0].state), Derive(fs[..k]), fs[k - 1].state, fs[k].state);
    }
  }

  // Within the log, the i-th transition into frame k starts from the status
  // the fold has reached there: absent exactly when it is an addition.
  lemma FromStatusIsFolded(fs: seq<Frame>, goalId: Id, agent: Agent, k: nat, i: nat)
    requires ValidFrames(fs) && LineageError(fs, goalId, agent).None?
    requires 0 < k < |fs| && i < |fs[k].state.beliefs|
    ensures var ts := Between(fs[k - 1].state, fs[k].state.snapshotId, fs[k].state.beliefs);
      var folded := Replay(StatusMap(fs[0].state), Derive(fs[..k]) + ts[..i]);
      && ts[i].fromStatus == Lookup(folded, ts[i].propositionId)
      && (ts[i].kind.Added? <==> ts[i].fromStatus.None?)
      && ts[i].fromSnapshot != ts[i].toSnapshot
  {
    FoldedInto(fs, goalId, agent, k, i);
    FoldedLookup(fs[k - 1].state, fs[k].state, i);
    TransitionStart(fs[k - 1].state, fs[k].state, i);
    StatesDiffer(fs, goalId, agent, k);
  }

  lemma FoldedLookup(prev: Snapshot, next: Snapshot, i: nat)
    requires Distinct(BeliefIds(next.beliefs)) && i < |next.beliefs|
    ensures var id, ts := next.beliefs[i].proposition.id, Between(prev, next.snapshotId, next.beliefs);
      Lookup(Replay(StatusMap(prev), ts[..i]), id) == Lookup(StatusMap(prev), id)
  {
    ReplayInto(StatusMap(prev), prev, next, i);
    FreshInPrefix(next.beliefs, i);
  }

  lemma TransitionStart(prev: Snapshot, next: Snapshot, i: nat)
    requires Distinct(BeliefIds(prev.beliefs)) && i < |next.beliefs|
    ensures var t, id := Between(prev, next.snapshotId, next.beliefs)[i], next.beliefs[i].proposition.id;
      && t.propositionId == id && t.fromStatus == Lookup(StatusMap(prev), id)
      && (t.kind.Added? <==> t.fromStatus.None?)
      && t.fromSnapshot == prev.snapshotId && t.toSnapshot == next.snapshotId
  {
    PreviousStatus(prev, next.beliefs[i].proposition.id);
  }

  lemma FoldedInto(fs: seq<Frame>, goalId: Id, agent: Agent, k: nat, i: nat)
    requires ValidFrames(fs) && LineageError(fs, goalId, agent).None?
    requires 0 < k < |fs| && i <= |fs[k].state.beliefs|
    ensures var ts := Between(fs[k - 1].state, fs[k].state.snapshotId, fs[k].state.beliefs);
      Replay(StatusMap(fs[0].state), Derive(fs[..k]) + ts[..i]) == Replay(StatusMap(fs[k - 1].state), ts[..i])
  {
    var ts := Between(fs[k - 1].state, fs[k].state.snapshotId, fs[k].state.beliefs);
    ReplayReproduces(fs, goalId, agent, k - 1);
    assert fs[..k - 1 + 1] == fs[..k];
    ReplayAppend(StatusMap(fs[0].state), Derive(fs[..k]), ts[..i]);
  }

  lemma FreshInPrefix(bs: seq<Belief>, i: nat)
    requires Distinct(BeliefIds(bs)) && i < |bs|
    ensures bs[i].proposition.id !in BeliefIds(bs)[..i]
  {
    assert BeliefIds(bs)[i] == bs[i].proposition.id;
  }

  lemma StatesDiffer(fs: seq<Frame>, goalId: Id, agent: Agent, k: nat)
    requires LineageError(fs, goalId, agent).None? && 0 < k < |fs|
    ensures fs[k - 1].state.snapshotId != fs[k].state.snapshotId
  {
    LineageErrorIff(fs, goalId, agent);
    assert StateIds(fs)[k - 1] != StateIds(fs)[k];
  }

  lemma PreviousStatus(prev: Snapshot, id: Id)
    requires Distinct(BeliefIds(prev.beliefs))
    ensures Lookup(StatusMap(prev), id)
         == match BeliefOf(prev, id) case Some(b) => Some(b.status) case None => None
  {
  }
}
