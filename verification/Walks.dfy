/** Walks and reachability in a finite directed graph given by its set of edges. */
module Walks {

  /** Consecutive symbols of a walk are joined by edges; a walk has at least one symbol. */
  ghost predicate IsWalk<T(!new)>(edges: set<(T, T)>, w: seq<T>) {
    |w| > 0 && forall i :: 0 <= i < |w| - 1 ==> (w[i], w[i + 1]) in edges
  }

  ghost predicate Joins<T(!new)>(edges: set<(T, T)>, w: seq<T>, a: T, b: T) {
    IsWalk(edges, w) && w[0] == a && w[|w| - 1] == b
  }

  ghost predicate Reach<T(!new)>(edges: set<(T, T)>, a: T, b: T) {
    exists w :: Joins(edges, w, a, b)
  }

  lemma ReachRefl<T(!new)>(edges: set<(T, T)>, a: T)
    ensures Reach(edges, a, a)
  {
    assert Joins(edges, [a], a, a);
  }

  lemma ReachEdge<T(!new)>(edges: set<(T, T)>, a: T, b: T)
    requires (a, b) in edges
    ensures Reach(edges, a, b)
  {
    assert Joins(edges, [a, b], a, b);
  }

  lemma ReachTrans<T(!new)>(edges: set<(T, T)>, a: T, b: T, c: T)
    requires Reach(edges, a, b) && Reach(edges, b, c)
    ensures Reach(edges, a, c)
  {
    var u :| Joins(edges, u, a, b);
    var v :| Joins(edges, v, b, c);
    var w := u + v[1..];
    forall i | 0 <= i < |w| - 1
      ensures (w[i], w[i + 1]) in edges
    {
      if i >= |u| - 1 {
        assert w[i] == v[i - |u| + 1] && w[i + 1] == v[i - |u| + 2];
      }
    }
    assert Joins(edges, w, a, c);
  }

  /** A set that no edge leaves contains everything reachable from it. */
  lemma {:induction false} ReachStaysInside<T(!new)>(edges: set<(T, T)>, inside: set<T>, a: T, b: T)
    requires a in inside && Reach(edges, a, b)
    requires forall x, y :: (x, y) in edges && x in inside ==> y in inside
    ensures b in inside
  {
    var w :| Joins(edges, w, a, b);
    WalkStaysInside(edges, inside, w);
  }

  lemma {:induction false} WalkStaysInside<T(!new)>(edges: set<(T, T)>, inside: set<T>, w: seq<T>)
    requires IsWalk(edges, w) && w[0] in inside
    requires forall x, y :: (x, y) in edges && x in inside ==> y in inside
    ensures forall i :: 0 <= i < |w| ==> w[i] in inside
  {
    if |w| > 1 {
      assert (w[0], w[1]) in edges;
      WalkStaysInside(edges, inside, w[1..]);
      assert forall i :: 1 <= i < |w| ==> w[i] == w[1..][i - 1];
    }
  }
}
