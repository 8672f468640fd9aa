/** Breadth-first search with a depth limit, seen apart from any program: what holds between two turns of
    the queue loop, and what follows for distances. */
module LayeredSearch {
  import opened Walks
  import opened Ordering

  datatype Item<T> = Item(node: T, depth: int)

  /** `expanded` symbols have had all neighbours put in the queue, `dropped` ones were too deep for that. */
  datatype Layers<!T> = Layers(queue: seq<Item<T>>, visited: set<T>, expanded: set<T>, dropped: set<T>)

  /** A walk of exactly `d` edges leads from a start to `v`. */
  ghost predicate Leads<T(!new)>(edges: set<(T, T)>, starts: set<T>, w: seq<T>, v: T, d: int) {
    IsWalk(edges, w) && w[0] in starts && w[|w| - 1] == v && |w| - 1 == d
  }

  ghost predicate Within<T(!new)>(edges: set<(T, T)>, starts: set<T>, v: T, d: int) {
    exists w :: IsWalk(edges, w) && w[0] in starts && w[|w| - 1] == v && |w| - 1 <= d
  }

  /** `d` is the length of a shortest walk from a start to `v`. */
  ghost predicate AtDistance<T(!new)>(edges: set<(T, T)>, starts: set<T>, v: T, d: int) {
    && (exists w :: Leads(edges, starts, w, v, d))
    && (forall w :: IsWalk(edges, w) && w[0] in starts && w[|w| - 1] == v ==> |w| - 1 >= d)
  }

  ghost predicate Queued<T>(s: Layers<T>, v: T) {
    exists i :: 0 <= i < |s.queue| && s.queue[i].node == v
  }

  /** The queue is sorted by depth and spans at most two layers. */
  ghost predicate Layered<T>(s: Layers<T>) {
    && (forall i, j :: 0 <= i < j < |s.queue| ==> s.queue[i].depth <= s.queue[j].depth)
    && (forall i :: 0 <= i < |s.queue| ==> s.queue[i].depth <= s.queue[0].depth + 1)
  }

  ghost predicate Accounted<T(!new)>(edges: set<(T, T)>, starts: set<T>, s: Layers<T>) {
    && starts <= s.visited && s.expanded <= s.visited
    && (forall v :: v in s.visited ==> v in s.expanded || v in s.dropped || Queued(s, v))
    && (forall i :: 0 <= i < |s.queue| ==> s.queue[i].node in s.visited)
    && (forall a, b :: (a, b) in edges && a in s.expanded ==> b in s.visited)
  }

  ghost predicate Measured<T(!new)>(edges: set<(T, T)>, starts: set<T>, s: Layers<T>, limit: int) {
    && (forall i :: 0 <= i < |s.queue| ==> AtDistance(edges, starts, s.queue[i].node, s.queue[i].depth))
    && (forall i :: 0 <= i < |s.queue| ==>
          0 <= s.queue[i].depth && (s.queue[i].depth == 0 || s.queue[i].depth <= limit))
    && (forall v :: v in s.dropped ==>
          exists d :: d >= limit && (d == 0 || d <= limit) && AtDistance(edges, starts, v, d))
    && (forall v :: v in s.expanded ==> exists d :: d < limit && AtDistance(edges, starts, v, d))
    && (s.dropped != {} ==> forall i :: 0 <= i < |s.queue| ==> s.queue[i].depth >= limit)
  }

  ghost predicate Inv<T(!new)>(edges: set<(T, T)>, starts: set<T>, s: Layers<T>, limit: int) {
    Layered(s) && Accounted(edges, starts, s) && Measured(edges, starts, s, limit)
  }

  lemma StartDistance<T(!new)>(edges: set<(T, T)>, starts: set<T>, v: T)
    requires v in starts
    ensures AtDistance(edges, starts, v, 0)
  {
    assert Leads(edges, starts, [v], v, 0);
  }

  /** The first symbol of a walk that has not been expanded waits in the queue or was dropped. */
  lemma {:induction false} FirstOpen<T(!new)>(edges: set<(T, T)>, starts: set<T>, s: Layers<T>, w: seq<T>)
      returns (i: nat)
    requires Accounted(edges, starts, s) && IsWalk(edges, w) && w[0] in starts
    requires exists k :: 0 <= k < |w| && w[k] !in s.expanded
    ensures i < |w| && w[i] !in s.expanded && w[i] in s.visited
    ensures forall k :: 0 <= k < i ==> w[k] in s.expanded
  {
    i := 0;
    while w[i] in s.expanded
      invariant i < |w| && w[i] in s.visited
      invariant forall k :: 0 <= k < i ==> w[k] in s.expanded
      decreases |w| - i
    {
      assert i < |w| - 1;
      assert (w[i], w[i + 1]) in edges;
      i := i + 1;
    }
  }

  lemma PrefixIsWalk<T(!new)>(edges: set<(T, T)>, w: seq<T>, i: nat)
    requires IsWalk(edges, w) && i < |w|
    ensures IsWalk(edges, w[..i + 1]) && w[..i + 1][0] == w[0] && w[..i + 1][i] == w[i]
  {}

  lemma DistanceBounds<T(!new)>(edges: set<(T, T)>, starts: set<T>, w: seq<T>, i: nat, d: int)
    requires IsWalk(edges, w) && w[0] in starts && i < |w| && AtDistance(edges, starts, w[i], d)
    ensures d <= i
  {
    hide IsWalk, Leads;
    PrefixIsWalk(edges, w, i);
    assert |w[..i + 1]| - 1 >= d;
  }

  /** A symbol still waiting is no closer to the starts than the head of the queue; one dropped, than the limit. */
  lemma OpenIsFar<T(!new)>(edges: set<(T, T)>, starts: set<T>, s: Layers<T>, limit: int, w: seq<T>, i: nat)
    requires Inv(edges, starts, s, limit) && IsWalk(edges, w) && w[0] in starts
    requires i < |w| && w[i] !in s.expanded && w[i] in s.visited
    ensures w[i] in s.dropped || (s.queue != [] && s.queue[0].depth <= i)
    ensures w[i] in s.dropped ==> limit <= i
  {
    hide IsWalk, AtDistance;
    if w[i] in s.dropped {
      DroppedIsFar(edges, starts, s, limit, w, i);
    } else {
      assert Accounted(edges, starts, s) && Queued(s, w[i]);
      WaitingIsFar(edges, starts, s, limit, w, i);
    }
  }

  lemma DroppedIsFar<T(!new)>(edges: set<(T, T)>, starts: set<T>, s: Layers<T>, limit: int, w: seq<T>, i: nat)
    requires Measured(edges, starts, s, limit) && IsWalk(edges, w) && w[0] in starts && i < |w| && w[i] in s.dropped
    ensures limit <= i
  {
    hide IsWalk, AtDistance;
    var d :| d >= limit && (d == 0 || d <= limit) && AtDistance(edges, starts, w[i], d);
    DistanceBounds(edges, starts, w, i, d);
  }

  lemma WaitingIsFar<T(!new)>(edges: set<(T, T)>, starts: set<T>, s: Layers<T>, limit: int, w: seq<T>, i: nat)
    requires Layered(s) && Measured(edges, starts, s, limit) && IsWalk(edges, w) && w[0] in starts
    requires i < |w| && Queued(s, w[i])
    ensures s.queue != [] && s.queue[0].depth <= i
  {
    hide IsWalk, AtDistance;
    var j :| 0 <= j < |s.queue| && s.queue[j].node == w[i];
    assert AtDistance(edges, starts, s.queue[j].node, s.queue[j].depth);
    DistanceBounds(edges, starts, w, i, s.queue[j].depth);
  }

  // ---- One turn of the queue loop ----

  /** The head of the queue is too deep to be expanded. */
  ghost function Drop<T(!new)>(s: Layers<T>): Layers<T>
    requires s.queue != []
  {
    s.(queue := s.queue[1..], dropped := s.dropped + {s.queue[0].node})
  }

  ghost function Items<T>(news: seq<T>, depth: int): seq<Item<T>> {
    seq(|news|, i requires 0 <= i < |news| => Item(news[i], depth))
  }

  /** The head of the queue is expanded: `news`, its neighbours not visited before, go to the back. */
  ghost function Expand<T(!new)>(s: Layers<T>, news: seq<T>): Layers<T>
    requires s.queue != []
  {
    Layers(s.queue[1..] + Items(news, s.queue[0].depth + 1), s.visited + Elements(news),
           s.expanded + {s.queue[0].node}, s.dropped)
  }

  lemma TailKeepsQueued<T(!new)>(s: Layers<T>, v: T)
    requires s.queue != [] && Queued(s, v) && v != s.queue[0].node
    ensures exists i :: 0 <= i < |s.queue[1..]| && s.queue[1..][i].node == v
  {
    var i :| 0 <= i < |s.queue| && s.queue[i].node == v;
    assert s.queue[1..][i - 1].node == v;
  }

  lemma DropKeeps<T(!new)>(edges: set<(T, T)>, starts: set<T>, s: Layers<T>, limit: int)
    requires Inv(edges, starts, s, limit) && s.queue != [] && s.queue[0].depth >= limit
    ensures Inv(edges, starts, Drop(s), limit)
  {
    hide AtDistance;
    var t := Drop(s);
    assert AtDistance(edges, starts, s.queue[0].node, s.queue[0].depth);
    forall v | v in t.visited
      ensures v in t.expanded || v in t.dropped || Queued(t, v)
    {
      if v !in t.expanded && v !in t.dropped {
        TailKeepsQueued(s, v);
      }
    }
    assert Layered(t);
  }

  /** Any walk to a symbol not visited before passes something that waits, and then has an edge to go. */
  lemma NewIsFar<T(!new)>(edges: set<(T, T)>, starts: set<T>, s: Layers<T>, limit: int, p: seq<T>)
    requires Inv(edges, starts, s, limit) && s.queue != [] && s.queue[0].depth < limit
    requires IsWalk(edges, p) && p[0] in starts && p[|p| - 1] !in s.visited
    ensures |p| - 1 >= s.queue[0].depth + 1
  {
    hide Layered, Measured, AtDistance;
    assert p[|p| - 1] !in s.expanded;
    var i := FirstOpen(edges, starts, s, p);
    OpenIsFar(edges, starts, s, limit, p, i);
  }

  lemma LongerWalk<T(!new)>(edges: set<(T, T)>, starts: set<T>, u: T, d: int, b: T, e: int)
    requires AtDistance(edges, starts, u, d) && (u, b) in edges && e == d + 1
    ensures exists w :: Leads(edges, starts, w, b, e)
  {
    var w :| Leads(edges, starts, w, u, d);
    assert Leads(edges, starts, w + [b], b, e);
  }

  /** A neighbour not visited before is one step further from the starts than the head of the queue. */
  lemma NewDistance<T(!new)>(edges: set<(T, T)>, starts: set<T>, s: Layers<T>, limit: int, b: T)
    requires Inv(edges, starts, s, limit) && s.queue != [] && s.queue[0].depth < limit
    requires (s.queue[0].node, b) in edges && b !in s.visited
    ensures AtDistance(edges, starts, b, s.queue[0].depth + 1)
  {
    hide Layered, Accounted, Leads;
    var u, d := s.queue[0].node, s.queue[0].depth;
    assert AtDistance(edges, starts, u, d);
    LongerWalk(edges, starts, u, d, b, d + 1);
    forall p | IsWalk(edges, p) && p[0] in starts && p[|p| - 1] == b
      ensures |p| - 1 >= d + 1
    {
      NewIsFar(edges, starts, s, limit, p);
    }
  }

  lemma ExpandLayered<T(!new)>(s: Layers<T>, news: seq<T>)
    requires Layered(s) && s.queue != []
    ensures Layered(Expand(s, news))
  {
    var t := Expand(s, news);
    assert forall i :: 0 <= i < |t.queue| ==>
      t.queue[i].depth == if i < |s.queue| - 1 then s.queue[i + 1].depth else s.queue[0].depth + 1;
  }

  ghost predicate AreNews<T(!new)>(edges: set<(T, T)>, s: Layers<T>, news: seq<T>)
    requires s.queue != []
  {
    && (forall b :: b in news ==> (s.queue[0].node, b) in edges && b !in s.visited)
    && (forall b :: (s.queue[0].node, b) in edges ==> b in news || b in s.visited)
  }

  lemma ExpandAccounted<T(!new)>(edges: set<(T, T)>, starts: set<T>, s: Layers<T>, news: seq<T>)
    requires Accounted(edges, starts, s) && s.queue != [] && AreNews(edges, s, news)
    ensures Accounted(edges, starts, Expand(s, news))
  {
    var t := Expand(s, news);
    var n := |s.queue| - 1;
    forall v | v in t.visited
      ensures v in t.expanded || v in t.dropped || Queued(t, v)
    {
      if v in s.visited {
        if v !in t.expanded && v !in t.dropped {
          TailKeepsQueued(s, v);
          var i :| 0 <= i < n && s.queue[1..][i].node == v;
          assert t.queue[i].node == v;
        }
      } else {
        var i :| 0 <= i < |news| && news[i] == v;
        assert t.queue[n + i].node == v;
      }
    }
    forall i | 0 <= i < |t.queue|
      ensures t.queue[i].node in t.visited
    {
      if i < n {
        assert t.queue[i] == s.queue[i + 1];
      } else {
        assert t.queue[i].node == news[i - n];
      }
    }
  }

  lemma ExpandMeasured<T(!new)>(edges: set<(T, T)>, starts: set<T>, s: Layers<T>, limit: int, news: seq<T>)
    requires Inv(edges, starts, s, limit) && s.queue != [] && s.queue[0].depth < limit
    requires AreNews(edges, s, news)
    ensures Measured(edges, starts, Expand(s, news), limit)
  {
    hide AtDistance, Accounted, Layered;
    var t := Expand(s, news);
    var n := |s.queue| - 1;
    forall i | 0 <= i < |t.queue|
      ensures AtDistance(edges, starts, t.queue[i].node, t.queue[i].depth)
      ensures 0 <= t.queue[i].depth && (t.queue[i].depth == 0 || t.queue[i].depth <= limit)
    {
      if i < n {
        assert t.queue[i] == s.queue[i + 1];
      } else {
        assert t.queue[i] == Item(news[i - n], s.queue[0].depth + 1);
        NewDistance(edges, starts, s, limit, news[i - n]);
      }
    }
    assert AtDistance(edges, starts, s.queue[0].node, s.queue[0].depth);
    assert s.dropped == {};
  }

  lemma ExpandKeeps<T(!new)>(edges: set<(T, T)>, starts: set<T>, s: Layers<T>, limit: int, news: seq<T>)
    requires Inv(edges, starts, s, limit) && s.queue != [] && s.queue[0].depth < limit
    requires AreNews(edges, s, news)
    ensures Inv(edges, starts, Expand(s, news), limit)
  {
    ExpandLayered(s, news);
    ExpandAccounted(edges, starts, s, news);
    ExpandMeasured(edges, starts, s, limit, news);
    hide Layered, Measured;
  }

  // ---- What the search knows ----

  /** With the target next to the head of the queue and to nothing expanded before, no walk with an edge
      that ends in the target is shorter than the one through the head. */
  lemma FirstHitIsShortest<T(!new)>(edges: set<(T, T)>, starts: set<T>, s: Layers<T>, limit: int, target: T, p: seq<T>)
    requires Inv(edges, starts, s, limit) && s.queue != [] && s.queue[0].depth < limit
    requires forall x :: x in s.expanded ==> (x, target) !in edges
    requires IsWalk(edges, p) && p[0] in starts && p[|p| - 1] == target && |p| > 1
    ensures |p| - 1 >= s.queue[0].depth + 1
  {
    var q := p[..|p| - 1];
    assert (p[|p| - 2], p[|p| - 1]) in edges;
    assert q[|p| - 2] !in s.expanded;
    var i := FirstOpen(edges, starts, s, q);
    OpenIsFar(edges, starts, s, limit, q, i);
  }

  /** With an empty queue and the target next to nothing expanded, every such walk is longer than the limit. */
  lemma MissMeansFar<T(!new)>(edges: set<(T, T)>, starts: set<T>, s: Layers<T>, limit: int, target: T, p: seq<T>)
    requires Inv(edges, starts, s, limit) && s.queue == []
    requires forall x :: x in s.expanded ==> (x, target) !in edges
    requires IsWalk(edges, p) && p[0] in starts && p[|p| - 1] == target && |p| > 1
    ensures |p| - 1 > limit
  {
    var q := p[..|p| - 1];
    assert (p[|p| - 2], p[|p| - 1]) in edges;
    assert q[|p| - 2] !in s.expanded;
    var i := FirstOpen(edges, starts, s, q);
    OpenIsFar(edges, starts, s, limit, q, i);
  }

  lemma DistanceIsWithin<T(!new)>(edges: set<(T, T)>, starts: set<T>, v: T, d: int, limit: int)
    requires AtDistance(edges, starts, v, d) && d <= limit
    ensures Within(edges, starts, v, limit)
  {
    var w :| Leads(edges, starts, w, v, d);
  }

  lemma WithinIsVisited<T(!new)>(edges: set<(T, T)>, starts: set<T>, s: Layers<T>, limit: nat, v: T)
    requires Inv(edges, starts, s, limit) && s.queue == [] && Within(edges, starts, v, limit)
    ensures v in s.visited
  {
    hide AtDistance, Layered, Measured;
    var w :| IsWalk(edges, w) && w[0] in starts && w[|w| - 1] == v && |w| - 1 <= limit;
    if w[|w| - 1] !in s.expanded {
      var i := FirstOpen(edges, starts, s, w);
      OpenIsFar(edges, starts, s, limit, w, i);
    }
  }

  /** When the queue is empty the visited symbols are exactly those within the limit. */
  lemma VisitedIsWithin<T(!new)>(edges: set<(T, T)>, starts: set<T>, s: Layers<T>, limit: nat)
    requires Inv(edges, starts, s, limit) && s.queue == []
    ensures forall v :: v in s.visited <==> Within(edges, starts, v, limit)
  {
    hide AtDistance, Within, Layered;
    forall v | v in s.visited
      ensures Within(edges, starts, v, limit)
    {
      var d :| d <= limit && AtDistance(edges, starts, v, d);
      DistanceIsWithin(edges, starts, v, d, limit);
    }
    forall v | Within(edges, starts, v, limit)
      ensures v in s.visited
    {
      WithinIsVisited(edges, starts, s, limit, v);
    }
  }
}
