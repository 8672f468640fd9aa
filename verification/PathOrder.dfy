/** Which of the shortest walks a breadth-first search finds: the first in the order in which neighbours are listed. */
module PathOrder {
  import opened LayeredSearch
  import opened Walks

  /** The queue of the program: symbols with the path that led to them. */
  type Paths<T> = seq<(T, seq<T>)>

  ghost predicate QueueAgrees<T(!new)>(edges: set<(T, T)>, start: T, queue: Paths<T>, s: Layers<T>) {
    && |s.queue| == |queue|
    && forall i :: 0 <= i < |queue| ==>
         Joins(edges, queue[i].1, start, queue[i].0) && s.queue[i] == Item(queue[i].0, |queue[i].1| - 1)
  }

  ghost function Extended<T>(path: seq<T>, news: seq<T>): Paths<T> {
    seq(|news|, i requires 0 <= i < |news| => (news[i], path + [news[i]]))
  }

  /** Where `x` stands first in `xs`. */
  ghost function FirstAt<T(!new)>(xs: seq<T>, x: T): nat {
    if xs == [] || xs[0] == x then 0 else 1 + FirstAt(xs[1..], x)
  }

  /** The walks part after `k` steps, where the one goes on to a neighbour that is listed earlier. */
  ghost predicate PartsAt<T(!new)>(next: T -> seq<T>, w: seq<T>, v: seq<T>, k: nat) {
    k + 1 < |w| && k + 1 < |v| && w[..k + 1] == v[..k + 1]
    && FirstAt(next(w[k]), w[k + 1]) < FirstAt(next(w[k]), v[k + 1])
  }

  ghost predicate Precedes<T(!new)>(next: T -> seq<T>, w: seq<T>, v: seq<T>) {
    exists k: nat :: PartsAt(next, w, v, k)
  }

  /** `path` is the first of the walks of its length to its end. */
  ghost predicate IsFirst<T(!new)>(edges: set<(T, T)>, next: T -> seq<T>, start: T, path: seq<T>, v: T) {
    forall w :: Joins(edges, w, start, v) && |w| == |path| ==> w == path || Precedes(next, path, w)
  }

  lemma PrecedesLonger<T(!new)>(next: T -> seq<T>, w: seq<T>, v: seq<T>, x: T, y: T)
    requires Precedes(next, w, v)
    ensures Precedes(next, w + [x], v + [y])
  {
    var k: nat :| PartsAt(next, w, v, k);
    assert (w + [x])[..k + 1] == w[..k + 1] && (v + [y])[..k + 1] == v[..k + 1];
    assert PartsAt(next, w + [x], v + [y], k);
  }

  lemma PrecedesTransitive<T(!new)>(next: T -> seq<T>, u: seq<T>, v: seq<T>, w: seq<T>)
    requires Precedes(next, u, v) && Precedes(next, v, w)
    ensures Precedes(next, u, w)
  {
    hide FirstAt;
    var j: nat :| PartsAt(next, u, v, j);
    var k: nat :| PartsAt(next, v, w, k);
    var m := if j < k then j else k;
    assert u[..m + 1] == u[..j + 1][..m + 1] == v[..j + 1][..m + 1] == v[..m + 1];
    assert v[..m + 1] == v[..k + 1][..m + 1] == w[..k + 1][..m + 1] == w[..m + 1];
    assert j < k ==> v[j + 1] == v[..k + 1][j + 1] == w[..k + 1][j + 1] == w[j + 1];
    assert k < j ==> v[k + 1] == v[..j + 1][k + 1] == u[..j + 1][k + 1] == u[k + 1];
    assert u[m] == u[..m + 1][m] == v[..m + 1][m] == v[m];
    assert PartsAt(next, u, w, m);
  }

  lemma SiblingsPrecede<T(!new)>(next: T -> seq<T>, path: seq<T>, x: T, y: T)
    requires path != [] && FirstAt(next(path[|path| - 1]), x) < FirstAt(next(path[|path| - 1]), y)
    ensures Precedes(next, path + [x], path + [y])
  {
    hide FirstAt;
    assert PartsAt(next, path + [x], path + [y], |path| - 1);
  }

  /** Every path waiting is the first of its length to its end; those of one length wait in their order, and longer ones
      extend paths before all that wait. */
  ghost predicate Ranked<T(!new)>(edges: set<(T, T)>, next: T -> seq<T>, start: T, queue: Paths<T>) {
    && (forall i :: 0 <= i < |queue| ==> IsFirst(edges, next, start, queue[i].1, queue[i].0))
    && (forall i, j :: 0 <= i < j < |queue| && |queue[i].1| == |queue[j].1| ==>
          Precedes(next, queue[i].1, queue[j].1))
    && (forall i, j :: 0 <= i < |queue| && 0 <= j < |queue| && |queue[j].1| == |queue[i].1| + 1 ==>
          Precedes(next, queue[j].1[..|queue[i].1|], queue[i].1))
  }

  lemma StartRanked<T(!new)>(edges: set<(T, T)>, next: T -> seq<T>, start: T)
    ensures Ranked(edges, next, start, [(start, [start])])
  {
    forall w | Joins(edges, w, start, start) && |w| == 1
      ensures w == [start]
    {}
  }

  lemma TailRanked<T(!new)>(edges: set<(T, T)>, next: T -> seq<T>, start: T, queue: Paths<T>)
    requires Ranked(edges, next, start, queue) && queue != []
    ensures Ranked(edges, next, start, queue[1..])
  {
    hide IsFirst, Precedes;
  }

  /** A walk as long as the path at the head of the queue, to a symbol not expanded yet: that symbol waits with a path
      of that length. */
  lemma WaitsWithPath<T(!new)>(edges: set<(T, T)>, start: T, queue: Paths<T>, s: Layers<T>, limit: int, w: seq<T>)
      returns (j: nat)
    requires Inv(edges, {start}, s, limit) && QueueAgrees(edges, start, queue, s) && queue != []
    requires |queue[0].1| - 1 < limit && IsWalk(edges, w) && w[0] == start && |w| == |queue[0].1|
    requires w[|w| - 1] !in s.expanded
    ensures j < |queue| && queue[j].0 == w[|w| - 1] && |queue[j].1| == |w|
  {
    hide AtDistance;
    assert s.queue[0] == Item(queue[0].0, |queue[0].1| - 1);
    var i := FirstOpen(edges, {start}, s, w);
    OpenIsFar(edges, {start}, s, limit, w, i);
    assert i == |w| - 1;
    assert Queued(s, w[i]);
    j :| 0 <= j < |s.queue| && s.queue[j].node == w[i];
    assert AtDistance(edges, {start}, s.queue[j].node, s.queue[j].depth);
    DistanceBounds(edges, {start}, w, i, s.queue[j].depth);
  }

  /** A walk one step longer than the path at the head of the queue, whose last step leaves a symbol not expanded yet:
      it is the path with that step, or comes later. */
  lemma HeadIsFirst<T(!new)>(edges: set<(T, T)>, next: T -> seq<T>, start: T, queue: Paths<T>, s: Layers<T>,
                             limit: int, w: seq<T>)
    requires Inv(edges, {start}, s, limit) && QueueAgrees(edges, start, queue, s) && queue != []
    requires Ranked(edges, next, start, queue) && |queue[0].1| - 1 < limit
    requires IsWalk(edges, w) && w[0] == start && |w| == |queue[0].1| + 1 && w[|w| - 2] !in s.expanded
    ensures w == queue[0].1 + [w[|w| - 1]] || Precedes(next, queue[0].1 + [w[|w| - 1]], w)
  {
    hide Inv, Precedes;
    var path, t := queue[0].1, w[|w| - 1];
    var v := w[..|w| - 1];
    assert w == v + [t] && IsWalk(edges, v) && v[|v| - 1] == w[|w| - 2];
    var j := WaitsWithPath(edges, start, queue, s, limit, v);
    assert Joins(edges, v, start, queue[j].0);
    assert v == queue[j].1 || Precedes(next, queue[j].1, v) by {
      assert IsFirst(edges, next, start, queue[j].1, queue[j].0);
    }
    if v != path {
      if j > 0 && v != queue[j].1 {
        PrecedesTransitive(next, path, queue[j].1, v);
      }
      PrecedesLonger(next, path, v, t, t);
    }
  }

  /** The new neighbours stand in the order in which they are listed first. */
  ghost predicate InListOrder<T(!new)>(list: seq<T>, news: seq<T>) {
    forall i, j :: 0 <= i < j < |news| ==> FirstAt(list, news[i]) < FirstAt(list, news[j])
  }

  /** The first element not seen before stands behind all that were. */
  lemma FirstAtEarlier<T(!new)>(list: seq<T>, i: nat)
    requires i < |list|
    ensures forall x :: x in list[..i] ==> FirstAt(list, x) < i
    ensures list[i] !in list[..i] ==> FirstAt(list, list[i]) == i
  {
    if i > 0 {
      FirstAtEarlier(list[1..], i - 1);
      assert list[1..][..i - 1] == list[..i][1..];
      assert list[..i] == [list[0]] + list[..i][1..];
    }
  }

  /** Taking over the next element if it is new keeps the order. */
  lemma OneMoreInOrder<T(!new)>(list: seq<T>, news: seq<T>, i: nat)
    requires InListOrder(list, news) && i < |list| && list[i] !in list[..i]
    requires forall b :: b in news ==> b in list[..i]
    ensures InListOrder(list, news + [list[i]])
  {
    hide FirstAt;
    FirstAtEarlier(list, i);
    var more := news + [list[i]];
    forall j, k | 0 <= j < k < |more|
      ensures FirstAt(list, more[j]) < FirstAt(list, more[k])
    {
      assert more[j] in news;
    }
  }

  lemma NewsAreFirst<T(!new)>(edges: set<(T, T)>, next: T -> seq<T>, start: T, queue: Paths<T>, s: Layers<T>,
                              limit: int, b: T)
    requires Inv(edges, {start}, s, limit) && QueueAgrees(edges, start, queue, s) && queue != []
    requires Ranked(edges, next, start, queue) && |queue[0].1| - 1 < limit && b !in s.visited
    ensures IsFirst(edges, next, start, queue[0].1 + [b], b)
  {
    hide Precedes, Ranked, QueueAgrees, Measured, Layered;
    assert |queue[0].1| > 0 by { HeadHasPath(edges, start, queue, s); }
    forall w | Joins(edges, w, start, b) && |w| == |queue[0].1| + 1
      ensures w == queue[0].1 + [b] || Precedes(next, queue[0].1 + [b], w)
    {
      assert (w[|w| - 2], w[|w| - 1]) in edges;
      HeadIsFirst(edges, next, start, queue, s, limit, w);
    }
  }

  lemma HeadHasPath<T(!new)>(edges: set<(T, T)>, start: T, queue: Paths<T>, s: Layers<T>)
    requires QueueAgrees(edges, start, queue, s) && queue != []
    ensures |queue[0].1| > 0 && queue[0].1[|queue[0].1| - 1] == queue[0].0
    ensures s.queue != [] && s.queue[0] == Item(queue[0].0, |queue[0].1| - 1)
  {}

  /** Paths waiting are as long as the one at the head, or one step longer. */
  lemma TwoLengths<T(!new)>(edges: set<(T, T)>, start: T, queue: Paths<T>, s: Layers<T>, i: nat)
    requires Layered(s) && QueueAgrees(edges, start, queue, s) && i < |queue|
    ensures |queue[0].1| <= |queue[i].1| <= |queue[0].1| + 1
  {
    hide IsWalk;
    assert s.queue[i] == Item(queue[i].0, |queue[i].1| - 1) && s.queue[0] == Item(queue[0].0, |queue[0].1| - 1);
    assert i > 0 ==> s.queue[0].depth <= s.queue[i].depth;
  }

  lemma ExpandRanked<T(!new)>(edges: set<(T, T)>, next: T -> seq<T>, start: T, queue: Paths<T>, s: Layers<T>,
                              limit: int, news: seq<T>)
    requires Inv(edges, {start}, s, limit) && QueueAgrees(edges, start, queue, s) && queue != []
    requires Ranked(edges, next, start, queue) && |queue[0].1| - 1 < limit
    requires (forall b :: b in news ==> b !in s.visited) && InListOrder(next(queue[0].0), news)
    ensures Ranked(edges, next, start, queue[1..] + Extended(queue[0].1, news))
  {
    hide IsFirst, Precedes, QueueAgrees, Inv, Joins, FirstAt;
    var path, n := queue[0].1, |queue| - 1;
    var q := queue[1..] + Extended(path, news);
    HeadHasPath(edges, start, queue, s);
    forall i | 0 <= i < |q|
      ensures i < n ==> q[i] == queue[i + 1] && |path| <= |q[i].1| <= |path| + 1
      ensures i >= n ==> q[i] == (news[i - n], path + [news[i - n]])
    {
      if i < n {
        LayersOf(edges, start, s, limit);
        TwoLengths(edges, start, queue, s, i + 1);
      }
    }
    forall i | 0 <= i < |q|
      ensures IsFirst(edges, next, start, q[i].1, q[i].0)
    {
      if i >= n {
        assert news[i - n] in news;
        NewsAreFirst(edges, next, start, queue, s, limit, news[i - n]);
      }
    }
    forall i, j | 0 <= i < j < |q| && |q[i].1| == |q[j].1|
      ensures Precedes(next, q[i].1, q[j].1)
    {
      if i >= n {
        SiblingsPrecede(next, path, news[i - n], news[j - n]);
      } else if j >= n {
        var p := q[i].1[..|path|];
        assert Precedes(next, p, path);
        assert q[i].1 == p + [q[i].1[|path|]];
        PrecedesLonger(next, p, path, q[i].1[|path|], news[j - n]);
      }
    }
    forall i, j | 0 <= i < |q| && 0 <= j < |q| && |q[j].1| == |q[i].1| + 1
      ensures Precedes(next, q[j].1[..|q[i].1|], q[i].1)
    {
      if j >= n {
        assert q[j].1[..|path|] == path && Precedes(next, queue[0].1, queue[i + 1].1);
      }
    }
  }

  lemma LayersOf<T(!new)>(edges: set<(T, T)>, start: T, s: Layers<T>, limit: int)
    requires Inv(edges, {start}, s, limit)
    ensures Layered(s)
  {}

  /** Of the walks to a symbol next to the head of the queue and to nothing expanded before, the one through the head is
      the first of its length. */
  lemma HitIsFirst<T(!new)>(edges: set<(T, T)>, next: T -> seq<T>, start: T, queue: Paths<T>, s: Layers<T>,
                            limit: int, target: T)
    requires Inv(edges, {start}, s, limit) && QueueAgrees(edges, start, queue, s) && queue != []
    requires Ranked(edges, next, start, queue) && |queue[0].1| - 1 < limit
    requires forall x :: x in s.expanded ==> (x, target) !in edges
    ensures IsFirst(edges, next, start, queue[0].1 + [target], target)
  {
    hide Precedes, Ranked, QueueAgrees, Inv;
    HeadHasPath(edges, start, queue, s);
    forall w | Joins(edges, w, start, target) && |w| == |queue[0].1| + 1
      ensures w == queue[0].1 + [target] || Precedes(next, queue[0].1 + [target], w)
    {
      assert (w[|w| - 2], w[|w| - 1]) in edges;
      HeadIsFirst(edges, next, start, queue, s, limit, w);
    }
  }
}
