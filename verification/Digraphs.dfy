// Finite directed graphs as maps from a node to the set of nodes it needs.
// Targets outside the domain are allowed and are never part of a walk.
module Digraphs {
  import opened Foundation

  ghost predicate IsWalk<V>(g: map<V, set<V>>, p: seq<V>) {
    && |p| >= 1
    && (forall i :: 0 <= i < |p| ==> p[i] in g)
    && (forall i, j :: 0 <= i && j == i + 1 < |p| ==> p[j] in g[p[i]])
  }

  ghost predicate Edge<V>(g: map<V, set<V>>, a: V, b: V) {
    a in g && b in g[a]
  }

  ghost predicate IsCycle<V>(g: map<V, set<V>>, p: seq<V>) {
    IsWalk(g, p) && |p| >= 2 && p[0] == p[|p| - 1]
  }

  ghost predicate Acyclic<V(!new)>(g: map<V, set<V>>) {
    forall p :: !IsCycle(g, p)
  }

  // Every node is listed once and after all the nodes it needs.
  ghost predicate NeedsFirst<V>(g: map<V, set<V>>, order: seq<V>) {
    order == [] ||
    var n := |order| - 1;
    NeedsFirst(g, order[..n]) && order[n] in g && order[n] !in order[..n] && g[order[n]] <= Elems(order[..n])
  }

  lemma {:induction false} NeedsFirstAt<V>(g: map<V, set<V>>, order: seq<V>, i: nat)
    requires NeedsFirst(g, order) && i < |order|
    ensures order[i] in g && order[i] !in order[..i] && g[order[i]] <= Elems(order[..i])
  {
    var n := |order| - 1;
    if i < n {
      NeedsFirstAt(g, order[..n], i);
      assert order[..n][..i] == order[..i];
    }
  }

  lemma {:induction false} NeedsFirstDistinct<V>(g: map<V, set<V>>, order: seq<V>)
    requires NeedsFirst(g, order)
    ensures Distinct(order) && Elems(order) <= g.Keys
  {
    if order != [] {
      var n := |order| - 1;
      NeedsFirstDistinct(g, order[..n]);
      DistinctAppend(order[..n], order[n]);
      assert order == order[..n] + [order[n]];
    }
  }

  lemma NeedsFirstAppend<V>(g: map<V, set<V>>, order: seq<V>, v: V)
    requires NeedsFirst(g, order) && v in g && v !in order && g[v] <= Elems(order)
    ensures NeedsFirst(g, order + [v])
    ensures Elems(order + [v]) == Elems(order) + {v}
  {
    var longer := order + [v];
    assert longer[..|order|] == order && longer[|order|] == v;
    ElemsAppend(order, [v]);
    assert Elems([v]) == {v};
  }

  lemma {:induction false} WalkDescends<V>(g: map<V, set<V>>, order: seq<V>, p: seq<V>, i: nat) returns (j: nat)
    requires NeedsFirst(g, order) && IsWalk(g, p) && |p| >= 2
    requires i < |order| && order[i] == p[0]
    ensures j < i && order[j] == p[|p| - 1]
    decreases |p|
  {
    assert p[1] in g[p[0]];
    NeedsFirstAt(g, order, i);
    var k: nat :| k < i && order[k] == p[1];
    if |p| == 2 {
      j := k;
    } else {
      j := WalkDescends(g, order, p[1..], k);
    }
  }

  // A node listed after everything it needs lies on no cycle.
  lemma OrderedNodeOnNoCycle<V>(g: map<V, set<V>>, order: seq<V>, c: seq<V>)
    requires NeedsFirst(g, order) && IsCycle(g, c)
    ensures c[0] !in order
  {
    if c[0] in order {
      var i: nat :| i < |order| && order[i] == c[0];
      var j := WalkDescends(g, order, c, i);
      NeedsFirstDistinct(g, order);
      assert false;
    }
  }

  lemma OrderImpliesAcyclic<V(!new)>(g: map<V, set<V>>, order: seq<V>)
    requires NeedsFirst(g, order) && Elems(order) == g.Keys
    ensures Acyclic(g)
  {
    forall c ensures !IsCycle(g, c) {
      if IsCycle(g, c) {
        assert c[0] in Elems(order);
        OrderedNodeOnNoCycle(g, order, c);
        assert false;
      }
    }
  }

  lemma WalkExtends<V>(g: map<V, set<V>>, w: seq<V>, u: V)
    requires IsWalk(g, w) && u in g && u in g[w[|w| - 1]]
    ensures IsWalk(g, w + [u])
    ensures u in w ==> exists c :: IsCycle(g, c) && Elems(c) <= Elems(w)
  {
    if u in w {
      var k :| 0 <= k < |w| && w[k] == u;
      var c := w[k..] + [u];
      assert IsCycle(g, c);
    }
  }

  lemma DistinctFits<V>(w: seq<V>, s: set<V>)
    requires Distinct(w) && Elems(w) <= s
    ensures |w| <= |s|
  {
    DistinctCard(w);
    SubsetCard(Elems(w), s);
  }

  // If each node of a non-empty finite set needs a node of the set, following
  // needs for long enough runs into a cycle inside the set.
  lemma {:induction false} ExtendToCycle<V>(g: map<V, set<V>>, s: set<V>, w: seq<V>)
    requires s <= g.Keys
    requires forall v {:trigger g[v]} :: v in s ==> g[v] * s != {}
    requires IsWalk(g, w) && Distinct(w) && Elems(w) <= s
    ensures exists c :: IsCycle(g, c) && Elems(c) <= s
    decreases |s| - |w|
  {
    DistinctFits(w, s);
    var v := w[|w| - 1];
    assert v in Elems(w);
    var u :| u in g[v] * s;
    WalkExtends(g, w, u);
    if u !in w {
      DistinctAppend(w, u);
      DistinctFits(w + [u], s);
      ExtendToCycle(g, s, w + [u]);
    }
  }

  lemma StuckSetHasCycle<V>(g: map<V, set<V>>, s: set<V>)
    requires s != {} && s <= g.Keys
    requires forall v {:trigger g[v]} :: v in s ==> g[v] * s != {}
    ensures exists c :: IsCycle(g, c) && Elems(c) <= s
  {
    var v :| v in s;
    ExtendToCycle(g, s, [v]);
  }

  // A set closed under needs swallows every cycle that touches it.
  lemma {:induction false} CycleStaysInClosedSet<V>(g: map<V, set<V>>, s: set<V>, c: seq<V>, k: nat)
    requires IsCycle(g, c) && k < |c| && c[k] in s
    requires forall v, u :: v in s && v in g && u in g[v] && u in g ==> u in s
    ensures Elems(c) <= s
  {
    WalkStaysInClosedSet(g, s, c[k..]);
    assert c[|c| - 1] == c[k..][|c| - 1 - k];
    assert c[0] in s;
    WalkStaysInClosedSet(g, s, c);
  }

  lemma {:induction false} WalkStaysInClosedSet<V>(g: map<V, set<V>>, s: set<V>, p: seq<V>)
    requires IsWalk(g, p) && p[0] in s
    requires forall v, u :: v in s && v in g && u in g[v] && u in g ==> u in s
    ensures forall i :: 0 <= i < |p| ==> p[i] in s
    decreases |p|
  {
    if |p| > 1 {
      assert p[1] in g[p[0]];
      WalkStaysInClosedSet(g, s, p[1..]);
      forall i | 0 <= i < |p| ensures p[i] in s {
        if i > 0 { assert p[i] == p[1..][i - 1]; }
      }
    }
  }

  lemma RepeatIsCycle<V>(g: map<V, set<V>>, w: seq<V>, i: nat, j: nat)
    requires IsWalk(g, w) && i < j < |w| && w[i] == w[j]
    ensures IsCycle(g, w[i..j + 1])
  {
  }

  lemma CycleFromEdges<V>(g: map<V, set<V>>, c: seq<V>)
    requires |c| >= 2 && c[0] == c[|c| - 1]
    requires forall i, j :: 0 <= i && j == i + 1 < |c| ==> Edge(g, c[i], c[j])
    ensures IsCycle(g, c)
  {
    forall i | 0 <= i < |c| ensures c[i] in g {
      var k := if i < |c| - 1 then i else 0;
      var j := k + 1;
      assert Edge(g, c[k], c[j]);
    }
  }

  // Cycles survive into any graph that keeps their nodes' needs.
  lemma CycleTransfers<V>(g: map<V, set<V>>, h: map<V, set<V>>, c: seq<V>)
    requires IsCycle(g, c)
    requires forall v :: v in c ==> v in h && g[v] <= h[v]
    ensures IsCycle(h, c)
  {
    forall i, j | 0 <= i && j == i + 1 < |c| ensures c[j] in h[c[i]] {
      assert c[i] in c;
    }
  }
}
