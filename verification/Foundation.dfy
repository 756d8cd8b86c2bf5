// Vocabulary shared by every component: results, identifiers, the permanent
// agents, and a few facts about duplicate-free sequences.
module Foundation {

  datatype Option<+T> = None | Some(value: T)

  // A ValidationError, or any other exception the source raises, is an Err.
  datatype Result<+T, +E> = Ok(value: T) | Err(error: E)

  // Identifiers are taken after the source has stripped them.
  type Id = string

  datatype Agent = Cmo | Intelligence | Content | Creative | Performance

  predicate Distinct<T(==)>(s: seq<T>) {
    forall i, j :: 0 <= i < j < |s| ==> s[i] != s[j]
  }

  function Elems<T>(s: seq<T>): (r: set<T>) {
    set x | x in s
  }

  lemma {:induction false} DistinctCard<T>(s: seq<T>)
    requires Distinct(s)
    ensures |Elems(s)| == |s|
  {
    if s == [] {
    } else {
      var n := |s| - 1;
      DistinctCard(s[..n]);
      assert Elems(s) == Elems(s[..n]) + {s[n]};
      assert s[n] !in Elems(s[..n]);
    }
  }

  lemma {:induction false} SubsetCard<T>(a: set<T>, b: set<T>)
    requires a <= b
    ensures |a| <= |b|
    ensures |a| == |b| ==> a == b
  {
    assert b == a + (b - a);
    assert |b| == |a| + |b - a|;
  }

  lemma ElemsAppend<T>(a: seq<T>, b: seq<T>)
    ensures Elems(a + b) == Elems(a) + Elems(b)
  {
  }

  lemma DistinctAppend<T>(a: seq<T>, x: T)
    requires Distinct(a) && x !in a
    ensures Distinct(a + [x])
    ensures Elems(a + [x]) == Elems(a) + {x}
  {
  }

  lemma InLast<T>(s: seq<T>, x: T)
    requires |s| > 0
    ensures x in s <==> x in s[..|s| - 1] || x == s[|s| - 1]
  {
    assert s == s[..|s| - 1] + [s[|s| - 1]];
  }

  lemma DistinctLast<T>(s: seq<T>)
    requires |s| > 0
    ensures Distinct(s) <==> Distinct(s[..|s| - 1]) && s[|s| - 1] !in s[..|s| - 1]
    ensures s == s[..|s| - 1] + [s[|s| - 1]]
  {
    var n := |s| - 1;
    assert s == s[..n] + [s[n]];
    if Distinct(s[..n]) && s[n] !in s[..n] { DistinctAppend(s[..n], s[n]); }
  }

  // First occurrences, in order: what every de-duplicating loop and
  // dict.fromkeys leaves.
  function Dedupe(ids: seq<Id>): seq<Id> {
    if |ids| == 0 then []
    else
      var before := Dedupe(ids[..|ids| - 1]);
      if ids[|ids| - 1] in before then before else before + [ids[|ids| - 1]]
  }

  lemma {:induction false} DedupeMeaning(ids: seq<Id>)
    ensures Distinct(Dedupe(ids)) && Elems(Dedupe(ids)) == Elems(ids)
    ensures Distinct(ids) ==> Dedupe(ids) == ids
  {
    if |ids| > 0 {
      var n := |ids| - 1;
      var before := Dedupe(ids[..n]);
      DedupeMeaning(ids[..n]);
      assert ids == ids[..n] + [ids[n]];
      ElemsAppend(ids[..n], [ids[n]]);
      assert ids[n] in Elems(before) <==> ids[n] in ids[..n];
      if ids[n] !in before { DistinctAppend(before, ids[n]); }
    }
  }

  lemma DedupeSnoc(ids: seq<Id>, x: Id)
    ensures Dedupe(ids + [x]) == if x in Dedupe(ids) then Dedupe(ids) else Dedupe(ids) + [x]
  {
    assert (ids + [x])[..|ids|] == ids;
  }

  lemma {:induction false} DedupePrefix(a: seq<Id>, b: seq<Id>)
    ensures Dedupe(a) <= Dedupe(a + b)
  {
    if b == [] {
      assert a + b == a;
    } else {
      DedupePrefix(a, b[..|b| - 1]);
      assert a + b == (a + b[..|b| - 1]) + [b[|b| - 1]];
      DedupeSnoc(a + b[..|b| - 1], b[|b| - 1]);
    }
  }

  // The ids in `kept`, in order: what a filtering comprehension leaves.
  function Keep(ids: seq<Id>, kept: set<Id>): seq<Id> {
    if |ids| == 0 then []
    else Keep(ids[..|ids| - 1], kept) + if ids[|ids| - 1] in kept then [ids[|ids| - 1]] else []
  }

  lemma {:induction false} KeepMembers(ids: seq<Id>, kept: set<Id>)
    ensures forall id :: id in Keep(ids, kept) <==> id in ids && id in kept
  {
    if |ids| > 0 {
      KeepMembers(ids[..|ids| - 1], kept);
      forall id ensures id in ids <==> id in ids[..|ids| - 1] || id == ids[|ids| - 1] { InLast(ids, id); }
    }
  }

  lemma {:induction false} KeepSplits(ids: seq<Id>, all: set<Id>, kept: set<Id>)
    requires Elems(ids) <= all
    ensures multiset(Keep(ids, kept)) + multiset(Keep(ids, all - kept)) == multiset(ids)
  {
    if |ids| > 0 {
      var n := |ids| - 1;
      assert ids == ids[..n] + [ids[n]];
      assert ids[n] in Elems(ids);
      KeepSplits(ids[..n], all, kept);
    }
  }

  // Where the id first occurs, or |ids| if it does not.
  function Position(ids: seq<Id>, id: Id): (i: nat)
    ensures i <= |ids| && (id in ids <==> i < |ids|)
  {
    var n := |ids| - 1;
    if n < 0 then 0
    else
      assert ids == ids[..n] + [ids[n]];
      var i := Position(ids[..n], id);
      if i < n || ids[n] == id then i else n + 1
  }

  // Every id of `part` is one of `ids`, and they come in the same order.
  predicate InOrderOf(ids: seq<Id>, part: seq<Id>) {
    && (forall j :: 0 <= j < |part| ==> part[j] in ids)
    && (forall i, j :: 0 <= i < j < |part| ==> Position(ids, part[i]) < Position(ids, part[j]))
  }

  lemma {:induction false} KeepInOrder(ids: seq<Id>, kept: set<Id>)
    requires Distinct(ids)
    ensures InOrderOf(ids, Keep(ids, kept))
  {
    if |ids| > 0 {
      var n := |ids| - 1;
      DistinctLast(ids);
      KeepInOrder(ids[..n], kept);
      var before := Keep(ids[..n], kept);
      assert before + [] == before;
      assert InOrderOf(ids, before);
    }
  }
}
