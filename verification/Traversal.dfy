/** The direction-locked traversal from one symbol: a queue of (symbol, depth, direction), with blocked
    symbols neither listed nor expanded. The meaning of one turn of the loop is shared by both backends. */
module Traversal {
  import opened Walks
  import opened Options
  import opened Ordering
  import opened GraphState
  import opened LayeredSearch

  datatype Direction = Up | Down

  datatype Entry = Entry(id: string, depth: int, dir: Direction)

  datatype Turns = Turns(queue: seq<Entry>, visited: set<(string, Direction)>, listed: seq<Neighborhood>)

  /** `upstream + used_by` going up, `downstream + uses` going down. */
  function Forward(n: Neighborhood, dir: Direction): seq<string> {
    if dir == Up then n.upstream + n.usedBy else n.downstream + n.uses
  }

  function Emitted(listed: seq<Neighborhood>): set<string> {
    set i | 0 <= i < |listed| :: listed[i].symbolId
  }

  /** The symbols of `adjacent` that are not visited in this direction, in order of first appearance. */
  function News(visited: set<(string, Direction)>, adjacent: seq<string>, dir: Direction): seq<string> {
    if adjacent == [] then [] else
      var n := |adjacent| - 1;
      var earlier := News(visited, adjacent[..n], dir);
      if (adjacent[n], dir) in visited || adjacent[n] in earlier then earlier else earlier + [adjacent[n]]
  }

  function Entries(news: seq<string>, depth: int, dir: Direction): seq<Entry> {
    seq(|news|, i requires 0 <= i < |news| => Entry(news[i], depth, dir))
  }

  function Paired(news: seq<string>, dir: Direction): set<(string, Direction)> {
    set x | x in news :: (x, dir)
  }

  /** The neighbours not visited yet go to the back of the queue. */
  function Admit(s: Turns, adjacent: seq<string>, depth: int, dir: Direction): Turns {
    var news := News(s.visited, adjacent, dir);
    s.(queue := s.queue + Entries(news, depth, dir), visited := s.visited + Paired(news, dir))
  }

  /** One turn of the loop. Whatever symbol is expanded, its neighbours are read off the last neighbourhood
      that was listed, which is another symbol's when this one was listed earlier. */
  function Turn(hood: string -> Neighborhood, root: string, depth: int, blocked: set<string>, s: Turns): Turns
    requires s.queue != []
  {
    var e := s.queue[0];
    var rest := s.(queue := s.queue[1..]);
    if e.id in blocked && e.id != root then rest
    else
      var listed := if e.id in Emitted(s.listed) then s.listed else s.listed + [hood(e.id)];
      var shown := rest.(listed := listed);
      if e.depth < depth then Admit(shown, Forward(listed[|listed| - 1], e.dir), e.depth + 1, e.dir) else shown
  }

  function Start(root: string): Turns {
    Turns([Entry(root, 0, Up), Entry(root, 0, Down)], {(root, Up), (root, Down)}, [])
  }

  /** The state after `n` turns, or after fewer if the queue runs empty. */
  function AfterTurns(hood: string -> Neighborhood, root: string, depth: int, blocked: set<string>, n: nat): Turns {
    if n == 0 then Start(root) else
      var s := AfterTurns(hood, root, depth, blocked, n - 1);
      if s.queue == [] then s else Turn(hood, root, depth, blocked, s)
  }

  /** `r` is what the uncapped loop lists. */
  ghost predicate IsTraversal(hood: string -> Neighborhood, root: string, depth: int, blocked: set<string>,
                              r: seq<Neighborhood>) {
    exists n: nat :: AfterTurns(hood, root, depth, blocked, n).queue == []
                     && r == AfterTurns(hood, root, depth, blocked, n).listed
  }

  /** `r` is what the loop lists when it also stops at `cap` neighbourhoods. */
  ghost predicate IsCappedAt(hood: string -> Neighborhood, root: string, depth: int, blocked: set<string>, cap: int,
                             r: seq<Neighborhood>, n: nat) {
    var s := AfterTurns(hood, root, depth, blocked, n);
    && r == s.listed && (s.queue == [] || |s.listed| >= cap)
    && forall k: nat :: k < n ==>
         AfterTurns(hood, root, depth, blocked, k).queue != []
         && |AfterTurns(hood, root, depth, blocked, k).listed| < cap
  }

  // ---- The capped listing is a prefix of the uncapped one ----

  lemma TurnLists(hood: string -> Neighborhood, root: string, depth: int, blocked: set<string>, s: Turns)
    requires s.queue != []
    ensures s.listed <= Turn(hood, root, depth, blocked, s).listed
    ensures |Turn(hood, root, depth, blocked, s).listed| <= |s.listed| + 1
  {}

  lemma {:induction false} ListingGrows(hood: string -> Neighborhood, root: string, depth: int, blocked: set<string>,
                                        m: nat, n: nat)
    requires m <= n
    ensures AfterTurns(hood, root, depth, blocked, m).listed <= AfterTurns(hood, root, depth, blocked, n).listed
    ensures AfterTurns(hood, root, depth, blocked, m).queue == [] ==>
              AfterTurns(hood, root, depth, blocked, n) == AfterTurns(hood, root, depth, blocked, m)
    decreases n - m
  {
    hide Turn;
    if m < n {
      ListingGrows(hood, root, depth, blocked, m, n - 1);
      var s := AfterTurns(hood, root, depth, blocked, n - 1);
      if s.queue != [] {
        TurnLists(hood, root, depth, blocked, s);
      }
    }
  }

  /** The uncapped listing does not depend on when it is read once the queue is empty. */
  lemma TraversalIsUnique(hood: string -> Neighborhood, root: string, depth: int, blocked: set<string>,
                          r: seq<Neighborhood>, q: seq<Neighborhood>)
    requires IsTraversal(hood, root, depth, blocked, r) && IsTraversal(hood, root, depth, blocked, q)
    ensures r == q
  {
    hide AfterTurns;
    var m: nat :| AfterTurns(hood, root, depth, blocked, m).queue == []
                  && r == AfterTurns(hood, root, depth, blocked, m).listed;
    var n: nat :| AfterTurns(hood, root, depth, blocked, n).queue == []
                  && q == AfterTurns(hood, root, depth, blocked, n).listed;
    if m <= n {
      ListingGrows(hood, root, depth, blocked, m, n);
    } else {
      ListingGrows(hood, root, depth, blocked, n, m);
    }
  }

  lemma CappedIsPrefix(hood: string -> Neighborhood, root: string, depth: int, blocked: set<string>, cap: int,
                       r: seq<Neighborhood>, n: nat, full: seq<Neighborhood>)
    requires IsCappedAt(hood, root, depth, blocked, cap, r, n) && IsTraversal(hood, root, depth, blocked, full)
    ensures r == full[..if cap < 0 then 0 else if cap < |full| then cap else |full|]
  {
    hide Turn;
    var m: nat :| AfterTurns(hood, root, depth, blocked, m).queue == []
                  && full == AfterTurns(hood, root, depth, blocked, m).listed;
    if n > 0 {
      var s := AfterTurns(hood, root, depth, blocked, n - 1);
      TurnLists(hood, root, depth, blocked, s);
      assert |r| <= cap;
    }
    assert n <= m;
    ListingGrows(hood, root, depth, blocked, n, m);
  }

  // ---- The two cones ----

  type Node = (string, Direction)

  /** All symbols that the listings name, and the root. */
  ghost predicate Covers(hood: string -> Neighborhood, root: string, universe: set<string>) {
    && root in universe
    && (forall x, dir, y :: y in Forward(hood(x), dir) ==> y in universe)
    && (forall x :: hood(x).symbolId == x)
  }

  predicate Open(root: string, blocked: set<string>, x: string) {
    x == root || x !in blocked
  }

  /** Steps of the traversal: in one direction, out of symbols that are not blocked. */
  ghost function ConePairs(hood: string -> Neighborhood, root: string, blocked: set<string>, universe: set<string>)
      : set<(Node, Node)>
  {
    set x, dir, y | x in universe && dir in {Up, Down} && y in universe
                    && Open(root, blocked, x) && y in Forward(hood(x), dir) :: ((x, dir), (y, dir))
  }

  ghost function Starts(root: string): set<Node> {
    {(root, Up), (root, Down)}
  }

  /** The steps of one direction, between symbols. */
  ghost function DirectedPairs(hood: string -> Neighborhood, root: string, blocked: set<string>, universe: set<string>,
                               dir: Direction): set<(string, string)>
  {
    set x, y | x in universe && y in universe && Open(root, blocked, x) && y in Forward(hood(x), dir) :: (x, y)
  }

  /** `x` lies in the cone of direction `dir` at most `k` steps from the root: reverse edges only, or forward
      edges only, out of symbols that are not blocked. */
  ghost predicate InCone(hood: string -> Neighborhood, root: string, blocked: set<string>, universe: set<string>,
                         x: string, dir: Direction, k: int) {
    Within(DirectedPairs(hood, root, blocked, universe, dir), {root}, x, k)
  }

  /** Walks of the traversal never change direction. */
  lemma {:induction false} WalkKeepsDirection(hood: string -> Neighborhood, root: string, blocked: set<string>,
                                              universe: set<string>, w: seq<Node>)
    requires IsWalk(ConePairs(hood, root, blocked, universe), w)
    ensures forall i :: 0 <= i < |w| ==> w[i].1 == w[|w| - 1].1
  {
    if |w| > 1 {
      var q := w[..|w| - 1];
      WalkKeepsDirection(hood, root, blocked, universe, q);
      assert (w[|w| - 2], w[|w| - 1]) in ConePairs(hood, root, blocked, universe);
      assert q[|q| - 1] == w[|w| - 2];
      assert forall i :: 0 <= i < |q| ==> w[i] == q[i];
    }
  }

  lemma ConeOfWalk(hood: string -> Neighborhood, root: string, blocked: set<string>, universe: set<string>,
                   x: string, dir: Direction, k: int)
    requires Within(ConePairs(hood, root, blocked, universe), Starts(root), (x, dir), k)
    ensures InCone(hood, root, blocked, universe, x, dir, k)
  {
    var edges := ConePairs(hood, root, blocked, universe);
    var w: seq<Node> :| IsWalk(edges, w) && w[0] in Starts(root) && w[|w| - 1] == (x, dir) && |w| - 1 <= k;
    WalkKeepsDirection(hood, root, blocked, universe, w);
    var p := seq(|w|, i requires 0 <= i < |w| => w[i].0);
    forall i | 0 <= i < |p| - 1
      ensures (p[i], p[i + 1]) in DirectedPairs(hood, root, blocked, universe, dir)
    {
      assert (w[i], w[i + 1]) in edges;
    }
    assert IsWalk(DirectedPairs(hood, root, blocked, universe, dir), p);
  }

  lemma WalkOfCone(hood: string -> Neighborhood, root: string, blocked: set<string>, universe: set<string>,
                   x: string, dir: Direction, k: int)
    requires InCone(hood, root, blocked, universe, x, dir, k)
    ensures Within(ConePairs(hood, root, blocked, universe), Starts(root), (x, dir), k)
  {
    var edges := DirectedPairs(hood, root, blocked, universe, dir);
    var p: seq<string> :| IsWalk(edges, p) && p[0] in {root} && p[|p| - 1] == x && |p| - 1 <= k;
    var w := seq(|p|, i requires 0 <= i < |p| => (p[i], dir));
    forall i | 0 <= i < |w| - 1
      ensures (w[i], w[i + 1]) in ConePairs(hood, root, blocked, universe)
    {
      assert (p[i], p[i + 1]) in edges;
      assert dir == Up || dir == Down;
    }
    assert IsWalk(ConePairs(hood, root, blocked, universe), w);
    assert dir == Up || dir == Down;
  }

  /** No symbol that can be expanded, but the root, lies in both cones above the last layer. */
  ghost predicate ConesApart(hood: string -> Neighborhood, root: string, blocked: set<string>, universe: set<string>,
                             depth: int) {
    forall x :: x != root && x !in blocked && InCone(hood, root, blocked, universe, x, Up, depth - 1) ==>
                  !InCone(hood, root, blocked, universe, x, Down, depth - 1)
  }

  ghost predicate QueueMatches(s: Turns, t: Layers<Node>) {
    && t.visited == s.visited && |t.queue| == |s.queue|
    && forall i :: 0 <= i < |s.queue| ==> t.queue[i] == Item((s.queue[i].id, s.queue[i].dir), s.queue[i].depth)
  }

  /** What has been listed: the symbols taken off the queue that are not blocked, each once. */
  ghost predicate ListedMatches(hood: string -> Neighborhood, root: string, blocked: set<string>, s: Turns,
                                t: Layers<Node>) {
    && (forall i :: 0 <= i < |s.listed| ==> s.listed[i] == hood(s.listed[i].symbolId))
    && (forall i, j :: 0 <= i < j < |s.listed| ==> s.listed[i].symbolId != s.listed[j].symbolId)
    && (forall x :: x in Emitted(s.listed) <==>
          Open(root, blocked, x) && exists dir :: (x, dir) in t.expanded + t.dropped)
  }

  /** The root is only ever in the queue at the start, and its second turn comes right after its first. */
  ghost predicate RootFirst(root: string, s: Turns) {
    && (root, Up) in s.visited && (root, Down) in s.visited
    && (s == Start(root)
        || forall i :: 0 <= i < |s.queue| && s.queue[i].id == root ==>
             i == 0 && |s.listed| == 1 && s.listed[0].symbolId == root)
  }

  /** Nodes wait in the queue once, and not after their turn. */
  ghost predicate QueueFresh(root: string, universe: set<string>, t: Layers<Node>) {
    && (forall i, j :: 0 <= i < j < |t.queue| ==> t.queue[i].node != t.queue[j].node)
    && (forall i :: 0 <= i < |t.queue| ==> t.queue[i].node in t.visited && t.queue[i].node !in t.expanded + t.dropped)
    && t.expanded + t.dropped <= t.visited
    && (forall v :: v in t.visited ==> v.0 in universe)
  }

  ghost predicate Matches(hood: string -> Neighborhood, root: string, blocked: set<string>, universe: set<string>,
                          s: Turns, t: Layers<Node>) {
    && QueueMatches(s, t) && ListedMatches(hood, root, blocked, s, t) && RootFirst(root, s)
    && QueueFresh(root, universe, t)
  }

  lemma NewsMeaning(visited: set<(string, Direction)>, adjacent: seq<string>, dir: Direction)
    ensures forall x :: x in News(visited, adjacent, dir) <==> x in adjacent && (x, dir) !in visited
  {
    if adjacent != [] {
      var n := |adjacent| - 1;
      NewsMeaning(visited, adjacent[..n], dir);
      assert adjacent == adjacent[..n] + [adjacent[n]];
    }
  }

  ghost function AsNodes(news: seq<string>, dir: Direction): seq<Node> {
    seq(|news|, i requires 0 <= i < |news| => (news[i], dir))
  }

  lemma AsNodesElements(news: seq<string>, dir: Direction)
    ensures Elements(AsNodes(news, dir)) == Paired(news, dir)
    ensures forall v :: v in AsNodes(news, dir) <==> v.1 == dir && v.0 in news
  {
    var ns := AsNodes(news, dir);
    forall x | x in news
      ensures (x, dir) in ns
    {
      var i :| 0 <= i < |news| && news[i] == x;
      assert ns[i] == (x, dir);
    }
  }

  /** The state in which the head of the queue was expanded by its own neighbours. */
  ghost function Expanded(s: Turns, t: Layers<Node>, news: seq<string>): Layers<Node>
    requires t.queue != [] && s.queue != []
  {
    Expand(t, AsNodes(news, s.queue[0].dir))
  }

  lemma AdmittedMatches(s: Turns, t: Layers<Node>, adjacent: seq<string>, listed: seq<Neighborhood>)
    requires QueueMatches(s, t) && s.queue != []
    ensures
      var e := s.queue[0];
      QueueMatches(Admit(Turns(s.queue[1..], s.visited, listed), adjacent, e.depth + 1, e.dir),
                   Expanded(s, t, News(s.visited, adjacent, e.dir)))
  {
    hide News, Paired;
    var e := s.queue[0];
    var news := News(s.visited, adjacent, e.dir);
    AsNodesElements(news, e.dir);
    var q, r := Admit(Turns(s.queue[1..], s.visited, listed), adjacent, e.depth + 1, e.dir), Expanded(s, t, news);
    forall i | 0 <= i < |q.queue|
      ensures r.queue[i] == Item((q.queue[i].id, q.queue[i].dir), q.queue[i].depth)
    {
      if i < |s.queue| - 1 {
        assert q.queue[i] == s.queue[i + 1] && r.queue[i] == t.queue[i + 1];
      }
    }
  }

  lemma NewsAreNews(hood: string -> Neighborhood, root: string, blocked: set<string>, universe: set<string>,
                    s: Turns, t: Layers<Node>)
    requires Covers(hood, root, universe) && QueueMatches(s, t) && s.queue != [] && s.queue[0].id in universe
    requires Open(root, blocked, s.queue[0].id)
    ensures
      var e := s.queue[0];
      AreNews(ConePairs(hood, root, blocked, universe), t,
              AsNodes(News(s.visited, Forward(hood(e.id), e.dir), e.dir), e.dir))
  {
    hide News, Forward;
    var e := s.queue[0];
    var adjacent := Forward(hood(e.id), e.dir);
    NewsMeaning(s.visited, adjacent, e.dir);
    AsNodesElements(News(s.visited, adjacent, e.dir), e.dir);
    forall v
      ensures ((e.id, e.dir), v) in ConePairs(hood, root, blocked, universe) <==> v.0 in adjacent && v.1 == e.dir
    {
    }
  }

  lemma BlockedHasNone(hood: string -> Neighborhood, root: string, blocked: set<string>, universe: set<string>,
                       s: Turns, t: Layers<Node>)
    requires QueueMatches(s, t) && s.queue != [] && !Open(root, blocked, s.queue[0].id)
    ensures AreNews(ConePairs(hood, root, blocked, universe), t, [])
  {}

  lemma InBothCones(hood: string -> Neighborhood, root: string, depth: int, blocked: set<string>,
                    universe: set<string>, x: string, dir: Direction, other: Direction)
    requires x != root && x !in blocked && dir != other
    requires InCone(hood, root, blocked, universe, x, dir, depth - 1)
    requires InCone(hood, root, blocked, universe, x, other, depth - 1)
    ensures !ConesApart(hood, root, blocked, universe, depth)
  {
    hide InCone;
  }

  /** With the cones apart, a symbol that is expanded is the one listed last. */
  lemma ExpandedIsListedLast(hood: string -> Neighborhood, root: string, depth: int, blocked: set<string>,
                             universe: set<string>, s: Turns, t: Layers<Node>)
    requires Matches(hood, root, blocked, universe, s, t)
    requires LayeredSearch.Inv(ConePairs(hood, root, blocked, universe), Starts(root), t, depth)
    requires ConesApart(hood, root, blocked, universe, depth)
    requires s.queue != [] && Open(root, blocked, s.queue[0].id) && s.queue[0].depth < depth
    requires s.queue[0].id in Emitted(s.listed)
    ensures s.listed != [] && s.listed[|s.listed| - 1] == hood(s.queue[0].id)
  {
    hide ConePairs, DirectedPairs, Within, AtDistance, Layered, Accounted, ConesApart;
    var e := s.queue[0];
    if e.id != root {
      var dir :| (e.id, dir) in t.expanded + t.dropped;
      assert t.queue[0] == Item((e.id, e.dir), e.depth);
      assert (e.id, dir) in t.expanded;
      var edges := ConePairs(hood, root, blocked, universe);
      var d :| d < depth && AtDistance(edges, Starts(root), (e.id, dir), d);
      DistanceIsWithin(edges, Starts(root), (e.id, dir), d, depth - 1);
      DistanceIsWithin(edges, Starts(root), (e.id, e.dir), e.depth, depth - 1);
      ConeOfWalk(hood, root, blocked, universe, e.id, dir, depth - 1);
      ConeOfWalk(hood, root, blocked, universe, e.id, e.dir, depth - 1);
      InBothCones(hood, root, depth, blocked, universe, e.id, dir, e.dir);
    }
  }

  // ---- One turn keeps the agreement ----

  /** The state of the layers after the turn that the head of the queue takes. */
  ghost function TurnLayers(hood: string -> Neighborhood, root: string, depth: int, blocked: set<string>,
                            s: Turns, t: Layers<Node>): Layers<Node>
    requires s.queue != [] && t.queue != []
  {
    var e := s.queue[0];
    if e.depth >= depth then Drop(t)
    else if Open(root, blocked, e.id) then Expanded(s, t, News(s.visited, Forward(hood(e.id), e.dir), e.dir))
    else Expand(t, [])
  }

  lemma TurnQueue(hood: string -> Neighborhood, root: string, depth: int, blocked: set<string>,
                  s: Turns, t: Layers<Node>)
    requires QueueMatches(s, t) && s.queue != []
    requires Open(root, blocked, s.queue[0].id) && s.queue[0].depth < depth && s.queue[0].id in Emitted(s.listed) ==>
               s.listed != [] && s.listed[|s.listed| - 1] == hood(s.queue[0].id)
    ensures QueueMatches(Turn(hood, root, depth, blocked, s), TurnLayers(hood, root, depth, blocked, s, t))
  {
    hide News, Forward, Paired;
    var e := s.queue[0];
    var listed := if e.id in Emitted(s.listed) then s.listed else s.listed + [hood(e.id)];
    if Open(root, blocked, e.id) && e.depth < depth {
      assert listed[|listed| - 1] == hood(e.id);
      AdmittedMatches(s, t, Forward(hood(e.id), e.dir), listed);
    }
  }

  lemma TurnInv(hood: string -> Neighborhood, root: string, depth: int, blocked: set<string>, universe: set<string>,
                s: Turns, t: Layers<Node>)
    requires Covers(hood, root, universe) && QueueMatches(s, t) && s.queue != [] && s.queue[0].id in universe
    requires LayeredSearch.Inv(ConePairs(hood, root, blocked, universe), Starts(root), t, depth)
    ensures LayeredSearch.Inv(ConePairs(hood, root, blocked, universe), Starts(root),
                              TurnLayers(hood, root, depth, blocked, s, t), depth)
  {
    hide LayeredSearch.Inv, ConePairs, News, Forward, Covers, AreNews;
    var e := s.queue[0];
    var edges := ConePairs(hood, root, blocked, universe);
    if e.depth >= depth {
      DropKeeps(edges, Starts(root), t, depth);
    } else if Open(root, blocked, e.id) {
      NewsAreNews(hood, root, blocked, universe, s, t);
      ExpandKeeps(edges, Starts(root), t, depth, AsNodes(News(s.visited, Forward(hood(e.id), e.dir), e.dir), e.dir));
    } else {
      BlockedHasNone(hood, root, blocked, universe, s, t);
      ExpandKeeps(edges, Starts(root), t, depth, []);
    }
  }

  lemma TurnListed(hood: string -> Neighborhood, root: string, depth: int, blocked: set<string>, universe: set<string>,
                   s: Turns, t: Layers<Node>)
    requires Covers(hood, root, universe) && QueueMatches(s, t) && ListedMatches(hood, root, blocked, s, t)
    requires s.queue != []
    ensures ListedMatches(hood, root, blocked, Turn(hood, root, depth, blocked, s),
                          TurnLayers(hood, root, depth, blocked, s, t))
  {
    hide News, Forward, Paired;
    var e := s.queue[0];
    var u, v := Turn(hood, root, depth, blocked, s), TurnLayers(hood, root, depth, blocked, s, t);
    assert v.expanded + v.dropped == t.expanded + t.dropped + {(e.id, e.dir)};
    if Open(root, blocked, e.id) && e.id !in Emitted(s.listed) {
      assert u.listed == s.listed + [hood(e.id)];
      EmittedGrows(s.listed, hood(e.id));
    }
  }

  lemma EmittedGrows(listed: seq<Neighborhood>, n: Neighborhood)
    ensures Emitted(listed + [n]) == Emitted(listed) + {n.symbolId}
  {
    var more := listed + [n];
    assert more[|listed|] == n;
    assert forall i :: 0 <= i < |listed| ==> more[i] == listed[i];
  }

  lemma NewsAreDistinct(visited: set<(string, Direction)>, adjacent: seq<string>, dir: Direction)
    ensures forall i, j :: 0 <= i < j < |News(visited, adjacent, dir)| ==>
              News(visited, adjacent, dir)[i] != News(visited, adjacent, dir)[j]
  {}

  lemma ExpandedFresh(root: string, universe: set<string>, s: Turns, t: Layers<Node>, news: seq<string>)
    requires QueueFresh(root, universe, t) && t.queue != [] && s.queue != []
    requires forall i, j :: 0 <= i < j < |news| ==> news[i] != news[j]
    requires forall x :: x in news ==> x in universe && (x, s.queue[0].dir) !in t.visited
    ensures QueueFresh(root, universe, Expanded(s, t, news))
  {
    var u := Expanded(s, t, news);
    var n := |t.queue| - 1;
    AsNodesElements(news, s.queue[0].dir);
    forall i | 0 <= i < |u.queue|
      ensures i < n ==> u.queue[i] == t.queue[i + 1]
      ensures i >= n ==> u.queue[i].node == (news[i - n], s.queue[0].dir) && u.queue[i].node !in t.visited
    {
      assert i >= n ==> news[i - n] in news;
    }
  }

  lemma TurnFresh(hood: string -> Neighborhood, root: string, depth: int, blocked: set<string>, universe: set<string>,
                  s: Turns, t: Layers<Node>)
    requires Covers(hood, root, universe) && QueueMatches(s, t) && QueueFresh(root, universe, t) && s.queue != []
    ensures QueueFresh(root, universe, TurnLayers(hood, root, depth, blocked, s, t))
  {
    hide News, Forward;
    var e := s.queue[0];
    assert t.queue[0].node in t.visited;
    if e.depth < depth {
      if Open(root, blocked, e.id) {
        var adjacent := Forward(hood(e.id), e.dir);
        NewsMeaning(s.visited, adjacent, e.dir);
        NewsAreDistinct(s.visited, adjacent, e.dir);
        ExpandedFresh(root, universe, s, t, News(s.visited, adjacent, e.dir));
      } else {
        assert AsNodes([], e.dir) == [];
        ExpandedFresh(root, universe, s, t, []);
      }
    }
  }

  lemma TurnRootFirst(hood: string -> Neighborhood, root: string, depth: int, blocked: set<string>, s: Turns)
    requires RootFirst(root, s) && s.queue != [] && forall x :: hood(x).symbolId == x
    ensures RootFirst(root, Turn(hood, root, depth, blocked, s))
  {
    hide News, Forward, Paired;
    var e := s.queue[0];
    var u := Turn(hood, root, depth, blocked, s);
    var n := |s.queue| - 1;
    forall i | 0 <= i < |u.queue|
      ensures i < n ==> u.queue[i] == s.queue[i + 1]
      ensures i >= n ==> u.queue[i].id != root
    {
      if i >= n {
        var adjacent := Forward(u.listed[|u.listed| - 1], e.dir);
        NewsMeaning(s.visited, adjacent, e.dir);
        var news := News(s.visited, adjacent, e.dir);
        assert u.queue[i] == Entry(news[i - n], e.depth + 1, e.dir);
        assert news[i - n] in news;
        assert e.dir == Up || e.dir == Down;
        assert (root, e.dir) in s.visited;
      }
    }
  }

  lemma TurnMatches(hood: string -> Neighborhood, root: string, depth: int, blocked: set<string>,
                    universe: set<string>, s: Turns, t: Layers<Node>)
    requires Covers(hood, root, universe) && ConesApart(hood, root, blocked, universe, depth) && s.queue != []
    requires Matches(hood, root, blocked, universe, s, t)
    requires LayeredSearch.Inv(ConePairs(hood, root, blocked, universe), Starts(root), t, depth)
    ensures Matches(hood, root, blocked, universe, Turn(hood, root, depth, blocked, s),
                    TurnLayers(hood, root, depth, blocked, s, t))
    ensures LayeredSearch.Inv(ConePairs(hood, root, blocked, universe), Starts(root),
                              TurnLayers(hood, root, depth, blocked, s, t), depth)
  {
    hide LayeredSearch.Inv, ConePairs, ConesApart, ListedMatches, RootFirst, Turn, TurnLayers, Open, Emitted, Starts;
    if Open(root, blocked, s.queue[0].id) && s.queue[0].depth < depth && s.queue[0].id in Emitted(s.listed) {
      ExpandedIsListedLast(hood, root, depth, blocked, universe, s, t);
    }
    assert t.queue[0].node in t.visited;
    TurnQueue(hood, root, depth, blocked, s, t);
    TurnInv(hood, root, depth, blocked, universe, s, t);
    TurnListed(hood, root, depth, blocked, universe, s, t);
    TurnFresh(hood, root, depth, blocked, universe, s, t);
    TurnRootFirst(hood, root, depth, blocked, s);
  }

  lemma StartMatches(hood: string -> Neighborhood, root: string, depth: int, blocked: set<string>,
                     universe: set<string>) returns (t: Layers<Node>)
    requires Covers(hood, root, universe)
    ensures Matches(hood, root, blocked, universe, Start(root), t)
    ensures LayeredSearch.Inv(ConePairs(hood, root, blocked, universe), Starts(root), t, depth)
  {
    hide ConePairs, AtDistance;
    t := Layers([Item((root, Up), 0), Item((root, Down), 0)], {(root, Up), (root, Down)}, {}, {});
    var edges := ConePairs(hood, root, blocked, universe);
    StartDistance(edges, Starts(root), (root, Up));
    StartDistance(edges, Starts(root), (root, Down));
    assert t.queue[0].node == (root, Up) && t.queue[1].node == (root, Down);
  }

  lemma {:induction false} EveryTurnMatches(hood: string -> Neighborhood, root: string, depth: int,
                                            blocked: set<string>, universe: set<string>, n: nat)
      returns (t: Layers<Node>)
    requires Covers(hood, root, universe) && ConesApart(hood, root, blocked, universe, depth)
    ensures Matches(hood, root, blocked, universe, AfterTurns(hood, root, depth, blocked, n), t)
    ensures LayeredSearch.Inv(ConePairs(hood, root, blocked, universe), Starts(root), t, depth)
  {
    hide LayeredSearch.Inv, ConePairs, ConesApart, Matches, Turn, TurnLayers, Covers;
    if n == 0 {
      t := StartMatches(hood, root, depth, blocked, universe);
    } else {
      t := EveryTurnMatches(hood, root, depth, blocked, universe, n - 1);
      var s := AfterTurns(hood, root, depth, blocked, n - 1);
      if s.queue != [] {
        TurnMatches(hood, root, depth, blocked, universe, s, t);
        SameLength(hood, root, blocked, universe, s, t);
        t := TurnLayers(hood, root, depth, blocked, s, t);
      }
    }
  }

  lemma SameLength(hood: string -> Neighborhood, root: string, blocked: set<string>, universe: set<string>,
                   s: Turns, t: Layers<Node>)
    requires Matches(hood, root, blocked, universe, s, t)
    ensures |s.queue| == |t.queue|
  {}

  /** With the cones apart above the last layer, the traversal lists every symbol once, with its own
      neighbourhood, and lists exactly the symbols in the upward or the downward cone that are not blocked. */
  lemma TraversalIsCones(hood: string -> Neighborhood, root: string, depth: nat, blocked: set<string>,
                         universe: set<string>, r: seq<Neighborhood>)
    requires Covers(hood, root, universe) && ConesApart(hood, root, blocked, universe, depth)
    requires IsTraversal(hood, root, depth, blocked, r)
    ensures forall i :: 0 <= i < |r| ==> r[i] == hood(r[i].symbolId)
    ensures forall i, j :: 0 <= i < j < |r| ==> r[i].symbolId != r[j].symbolId
    ensures forall x :: x in Emitted(r) <==>
              && Open(root, blocked, x)
              && (InCone(hood, root, blocked, universe, x, Up, depth)
                  || InCone(hood, root, blocked, universe, x, Down, depth))
  {
    hide LayeredSearch.Inv, ConePairs, InCone, ConesApart, AfterTurns, Covers, Within, RootFirst, Open;
    var n: nat :| AfterTurns(hood, root, depth, blocked, n).queue == []
                  && r == AfterTurns(hood, root, depth, blocked, n).listed;
    var t := EveryTurnMatches(hood, root, depth, blocked, universe, n);
    VisitedIsWithin(ConePairs(hood, root, blocked, universe), Starts(root), t, depth);
    AllTaken(ConePairs(hood, root, blocked, universe), Starts(root), t, depth);
    forall x
      ensures (exists dir :: (x, dir) in t.expanded + t.dropped) <==>
              InCone(hood, root, blocked, universe, x, Up, depth)
              || InCone(hood, root, blocked, universe, x, Down, depth)
    {
      EitherDirection(t.expanded + t.dropped, x);
      ConeEquivalence(hood, root, blocked, universe, x, Up, depth);
      ConeEquivalence(hood, root, blocked, universe, x, Down, depth);
    }
  }

  lemma ConeEquivalence(hood: string -> Neighborhood, root: string, blocked: set<string>, universe: set<string>,
                        x: string, dir: Direction, k: int)
    ensures InCone(hood, root, blocked, universe, x, dir, k) <==>
            Within(ConePairs(hood, root, blocked, universe), Starts(root), (x, dir), k)
  {
    hide InCone, Within, ConePairs;
    if InCone(hood, root, blocked, universe, x, dir, k) {
      WalkOfCone(hood, root, blocked, universe, x, dir, k);
    }
    if Within(ConePairs(hood, root, blocked, universe), Starts(root), (x, dir), k) {
      ConeOfWalk(hood, root, blocked, universe, x, dir, k);
    }
  }

  lemma EitherDirection(nodes: set<Node>, x: string)
    ensures (exists dir :: (x, dir) in nodes) <==> (x, Up) in nodes || (x, Down) in nodes
  {
    if dir :| (x, dir) in nodes {
      assert dir == Up || dir == Down;
    }
  }

  lemma AllTaken(edges: set<(Node, Node)>, starts: set<Node>, t: Layers<Node>, depth: int)
    requires LayeredSearch.Inv(edges, starts, t, depth) && t.queue == []
    ensures forall v :: v in t.visited ==> v in t.expanded + t.dropped
  {}

  // ---- What holds even when the cones overlap ----

  /** `x` is at most `k` steps from the root, each in either direction. */
  ghost predicate Near(hood: string -> Neighborhood, root: string, x: string, k: nat)
    decreases k
  {
    if k == 0 then x == root
    else Near(hood, root, x, k - 1)
         || exists y :: Near(hood, root, y, k - 1) && (x in Forward(hood(y), Up) || x in Forward(hood(y), Down))
  }

  lemma {:induction false} NearGrows(hood: string -> Neighborhood, root: string, x: string, k: nat, m: nat)
    requires Near(hood, root, x, k) && k <= m
    ensures Near(hood, root, x, m)
    decreases m
  {
    if k < m {
      NearGrows(hood, root, x, k, m - 1);
    }
  }

  lemma NearStep(hood: string -> Neighborhood, root: string, y: string, dir: Direction, x: string, k: nat)
    requires Near(hood, root, y, k) && x in Forward(hood(y), dir)
    ensures Near(hood, root, x, k + 1)
  {
    assert dir == Up || dir == Down;
  }

  ghost predicate QueueNear(hood: string -> Neighborhood, root: string, depth: nat, queue: seq<Entry>) {
    && (forall i, j :: 0 <= i < j < |queue| ==> queue[i].depth <= queue[j].depth)
    && (forall i :: 0 <= i < |queue| ==> queue[i].depth <= queue[0].depth + 1)
    && (forall i :: 0 <= i < |queue| ==>
          0 <= queue[i].depth <= depth && Near(hood, root, queue[i].id, queue[i].depth))
  }

  ghost predicate ListedNear(hood: string -> Neighborhood, root: string, listed: seq<Neighborhood>, k: nat) {
    forall i :: 0 <= i < |listed| ==> Near(hood, root, listed[i].symbolId, k)
  }

  ghost predicate ListedOnce(hood: string -> Neighborhood, root: string, blocked: set<string>,
                             listed: seq<Neighborhood>) {
    && (forall i :: 0 <= i < |listed| ==>
          listed[i] == hood(listed[i].symbolId) && Open(root, blocked, listed[i].symbolId))
    && forall i, j :: 0 <= i < j < |listed| ==> listed[i].symbolId != listed[j].symbolId
  }

  ghost predicate Tidy(hood: string -> Neighborhood, root: string, depth: nat, blocked: set<string>, s: Turns) {
    && QueueNear(hood, root, depth, s.queue) && ListedOnce(hood, root, blocked, s.listed)
    && ListedNear(hood, root, s.listed, depth)
    && (s.queue != [] ==> ListedNear(hood, root, s.listed, s.queue[0].depth))
  }

  lemma ListedNearGrows(hood: string -> Neighborhood, root: string, listed: seq<Neighborhood>, k: nat, m: nat)
    requires ListedNear(hood, root, listed, k) && k <= m
    ensures ListedNear(hood, root, listed, m)
  {
    hide Near;
    forall i | 0 <= i < |listed|
      ensures Near(hood, root, listed[i].symbolId, m)
    {
      NearGrows(hood, root, listed[i].symbolId, k, m);
    }
  }

  /** Behind the head of the queue come entries one step deeper than it. */
  lemma JoinNear(hood: string -> Neighborhood, root: string, depth: nat, queue: seq<Entry>, more: seq<Entry>, k: nat)
    requires queue != [] && QueueNear(hood, root, depth, queue) && queue[0].depth == k < depth
    requires forall i :: 0 <= i < |more| ==> more[i].depth == k + 1 && Near(hood, root, more[i].id, k + 1)
    ensures QueueNear(hood, root, depth, queue[1..] + more)
  {
    hide Near;
    var q, n := queue[1..] + more, |queue| - 1;
    assert forall i :: 0 <= i < n ==> q[i] == queue[i + 1];
    assert forall i :: n <= i < |q| ==> q[i] == more[i - n];
  }

  lemma AdmitNear(hood: string -> Neighborhood, root: string, depth: nat, s: Turns, y: string)
    requires s.queue != [] && QueueNear(hood, root, depth, s.queue) && s.queue[0].depth < depth
    requires Near(hood, root, y, s.queue[0].depth)
    ensures var e := s.queue[0];
      QueueNear(hood, root, depth,
        Admit(s.(queue := s.queue[1..]), Forward(hood(y), e.dir), e.depth + 1, e.dir).queue)
  {
    hide Near, Forward, QueueNear, News;
    var e := s.queue[0];
    var news := News(s.visited, Forward(hood(y), e.dir), e.dir);
    var more := Entries(news, e.depth + 1, e.dir);
    NewsMeaning(s.visited, Forward(hood(y), e.dir), e.dir);
    DepthOfHead(hood, root, depth, s);
    forall i | 0 <= i < |more|
      ensures more[i].depth == e.depth + 1 && Near(hood, root, more[i].id, e.depth + 1)
    {
      NearStep(hood, root, y, e.dir, news[i], e.depth);
    }
    JoinNear(hood, root, depth, s.queue, more, e.depth);
  }

  lemma DropNear(hood: string -> Neighborhood, root: string, depth: nat, s: Turns)
    requires s.queue != [] && QueueNear(hood, root, depth, s.queue)
    ensures QueueNear(hood, root, depth, s.queue[1..])
  {
    hide Near;
  }

  /** The listing after a turn on a symbol that is not blocked. */
  function Shown(hood: string -> Neighborhood, s: Turns): seq<Neighborhood>
    requires s.queue != []
  {
    var e := s.queue[0];
    if e.id in Emitted(s.listed) then s.listed else s.listed + [hood(e.id)]
  }

  lemma ShownTidy(hood: string -> Neighborhood, root: string, depth: nat, blocked: set<string>, s: Turns)
    requires Tidy(hood, root, depth, blocked, s) && s.queue != [] && forall x :: hood(x).symbolId == x
    requires Open(root, blocked, s.queue[0].id)
    ensures 0 <= s.queue[0].depth <= depth
    ensures ListedOnce(hood, root, blocked, Shown(hood, s)) && ListedNear(hood, root, Shown(hood, s), s.queue[0].depth)
    ensures Shown(hood, s) != []
  {
    hide Near, Open;
    assert Near(hood, root, s.queue[0].id, s.queue[0].depth);
  }

  lemma OneMoreTurn(hood: string -> Neighborhood, root: string, depth: nat, blocked: set<string>, s: Turns, t: Turns)
    requires s.queue != [] && 0 <= s.queue[0].depth <= depth
    requires QueueNear(hood, root, depth, t.queue) && ListedOnce(hood, root, blocked, t.listed)
    requires ListedNear(hood, root, t.listed, s.queue[0].depth)
    requires t.queue != [] ==> s.queue[0].depth <= t.queue[0].depth
    ensures Tidy(hood, root, depth, blocked, t)
  {
    hide ListedNear, ListedOnce, Near;
    ListedNearGrows(hood, root, t.listed, s.queue[0].depth, depth);
    if t.queue != [] {
      ListedNearGrows(hood, root, t.listed, s.queue[0].depth, t.queue[0].depth);
    }
  }

  lemma HeadIsFirst(hood: string -> Neighborhood, root: string, depth: nat, s: Turns, rest: seq<Entry>)
    requires s.queue != [] && QueueNear(hood, root, depth, s.queue)
    requires forall i :: 0 <= i < |rest| ==> rest[i].depth == s.queue[0].depth + 1
    ensures var q := s.queue[1..] + rest; q != [] ==> s.queue[0].depth <= q[0].depth
  {
    hide Near;
  }

  /** The queue after the symbol at its head was shown and expanded. */
  lemma ExpandedNear(hood: string -> Neighborhood, root: string, depth: nat, blocked: set<string>, s: Turns,
                     listed: seq<Neighborhood>)
    requires s.queue != [] && QueueNear(hood, root, depth, s.queue) && s.queue[0].depth < depth
    requires 0 <= s.queue[0].depth && listed != []
    requires ListedOnce(hood, root, blocked, listed) && ListedNear(hood, root, listed, s.queue[0].depth)
    ensures
      var e := s.queue[0];
      var q := Admit(s.(queue := s.queue[1..], listed := listed), Forward(listed[|listed| - 1], e.dir), e.depth + 1,
                     e.dir).queue;
      QueueNear(hood, root, depth, q) && (q != [] ==> e.depth <= q[0].depth)
  {
    hide Near, Forward, News, QueueNear, ListedOnce, ListedNear;
    var e, last := s.queue[0], listed[|listed| - 1];
    LastListed(hood, root, blocked, listed, e.depth);
    AdmitNear(hood, root, depth, s, last.symbolId);
    HeadIsFirst(hood, root, depth, s, Entries(News(s.visited, Forward(last, e.dir), e.dir), e.depth + 1, e.dir));
  }

  lemma TurnTidy(hood: string -> Neighborhood, root: string, depth: nat, blocked: set<string>, s: Turns)
    requires Tidy(hood, root, depth, blocked, s) && s.queue != [] && forall x :: hood(x).symbolId == x
    ensures Tidy(hood, root, depth, blocked, Turn(hood, root, depth, blocked, s))
  {
    hide Near, Forward, Admit, QueueNear, ListedOnce, ListedNear, Emitted;
    var t := Turn(hood, root, depth, blocked, s);
    DepthOfHead(hood, root, depth, s);
    DropNear(hood, root, depth, s);
    HeadIsFirst(hood, root, depth, s, []);
    assert s.queue[1..] + [] == s.queue[1..];
    if Open(root, blocked, s.queue[0].id) {
      ShownTidy(hood, root, depth, blocked, s);
      if s.queue[0].depth < depth {
        ExpandedNear(hood, root, depth, blocked, s, Shown(hood, s));
      }
      AdmittedListing(s, t, hood, root, depth, blocked);
    }
    OneMoreTurn(hood, root, depth, blocked, s, t);
  }

  lemma AdmittedListing(s: Turns, t: Turns, hood: string -> Neighborhood, root: string, depth: nat,
                        blocked: set<string>)
    requires s.queue != [] && Open(root, blocked, s.queue[0].id) && t == Turn(hood, root, depth, blocked, s)
    ensures t.listed == Shown(hood, s)
  {
    hide Emitted, Forward, News;
  }

  lemma LastListed(hood: string -> Neighborhood, root: string, blocked: set<string>, listed: seq<Neighborhood>, k: nat)
    requires listed != [] && ListedOnce(hood, root, blocked, listed) && ListedNear(hood, root, listed, k)
    ensures var last := listed[|listed| - 1];
      last == hood(last.symbolId) && Near(hood, root, last.symbolId, k)
  {
    hide Near;
  }

  lemma DepthOfHead(hood: string -> Neighborhood, root: string, depth: nat, s: Turns)
    requires s.queue != [] && QueueNear(hood, root, depth, s.queue)
    ensures 0 <= s.queue[0].depth <= depth
  {
    hide Near;
  }

  lemma {:induction false} EveryTurnTidy(hood: string -> Neighborhood, root: string, depth: nat, blocked: set<string>,
                                         n: nat)
    requires forall x :: hood(x).symbolId == x
    ensures Tidy(hood, root, depth, blocked, AfterTurns(hood, root, depth, blocked, n))
  {
    hide Turn;
    if n > 0 {
      EveryTurnTidy(hood, root, depth, blocked, n - 1);
      var s := AfterTurns(hood, root, depth, blocked, n - 1);
      if s.queue != [] {
        TurnTidy(hood, root, depth, blocked, s);
      }
    }
  }

  /** Whatever the graph, the traversal lists no symbol twice, no blocked one but the root, each with its own
      neighbourhood, and none further than `depth` steps away. */
  lemma TraversalIsSound(hood: string -> Neighborhood, root: string, depth: nat, blocked: set<string>,
                         r: seq<Neighborhood>)
    requires IsTraversal(hood, root, depth, blocked, r) && forall x :: hood(x).symbolId == x
    ensures ListedOnce(hood, root, blocked, r) && ListedNear(hood, root, r, depth)
  {
    hide AfterTurns;
    var n: nat :| AfterTurns(hood, root, depth, blocked, n).queue == []
                  && r == AfterTurns(hood, root, depth, blocked, n).listed;
    EveryTurnTidy(hood, root, depth, blocked, n);
  }

  // ---- The loops ----

  /** `for adjacent in forward`: the ones not visited in this direction are marked and queued. */
  method Enqueue(s: Turns, adjacent: seq<string>, depth: int, dir: Direction) returns (t: Turns)
    ensures t == Admit(s, adjacent, depth, dir)
  {
    t := s;
    assert Entries([], depth, dir) == [];
    for i := 0 to |adjacent|
      invariant t == Admit(s, adjacent[..i], depth, dir)
    {
      var x := adjacent[i];
      assert adjacent[..i + 1][..i] == adjacent[..i];
      NewsMeaning(s.visited, adjacent[..i], dir);
      ghost var news := News(s.visited, adjacent[..i], dir);
      assert Entries(news + [x], depth, dir) == Entries(news, depth, dir) + [Entry(x, depth, dir)];
      assert (x, dir) in t.visited <==> (x, dir) in s.visited || x in news;
      if (x, dir) !in t.visited {
        t := t.(visited := t.visited + {(x, dir)}, queue := t.queue + [Entry(x, depth, dir)]);
      }
    }
    assert adjacent[..|adjacent|] == adjacent;
  }

  /** One pass through the body of the loop, with the program's set of emitted symbols and its variable for
      the current neighbourhood. */
  method TakeTurn(hood: string -> Neighborhood, root: string, depth: int, blocked: set<string>, s: Turns,
                  emitted: set<string>, neighborhood: Option<Neighborhood>)
      returns (t: Turns, emitted': set<string>, neighborhood': Option<Neighborhood>)
    requires s.queue != [] && emitted == Emitted(s.listed) && forall x :: hood(x).symbolId == x
    requires s.listed != [] ==> neighborhood == Some(s.listed[|s.listed| - 1])
    ensures t == Turn(hood, root, depth, blocked, s) && emitted' == Emitted(t.listed)
    ensures t.listed != [] ==> neighborhood' == Some(t.listed[|t.listed| - 1])
  {
    hide Admit, Forward;
    var e := s.queue[0];
    t, emitted', neighborhood' := s.(queue := s.queue[1..]), emitted, neighborhood;
    if e.id in blocked && e.id != root {
      return;
    }
    if e.id !in emitted' {
      EmittedGrows(t.listed, hood(e.id));
      neighborhood' := Some(hood(e.id));
      t := t.(listed := t.listed + [neighborhood'.value]);
      emitted' := emitted' + {e.id};
    }
    if e.depth < depth {
      AdmitLists(t, Forward(neighborhood'.value, e.dir), e.depth + 1, e.dir);
      t := Enqueue(t, Forward(neighborhood'.value, e.dir), e.depth + 1, e.dir);
    }
  }

  lemma AdmitLists(s: Turns, adjacent: seq<string>, depth: int, dir: Direction)
    ensures Admit(s, adjacent, depth, dir).listed == s.listed
  {}

  /** Every symbol in every direction: what can ever be visited. */
  ghost function Visitable(universe: set<string>): set<(string, Direction)> {
    set x, dir | x in universe && dir in {Up, Down} :: (x, dir)
  }

  /** Every listed neighbourhood is the one of its symbol. */
  ghost predicate OwnHoods(hood: string -> Neighborhood, listed: seq<Neighborhood>) {
    forall i :: 0 <= i < |listed| ==> listed[i] == hood(listed[i].symbolId)
  }

  /** A turn visits something new or shortens the queue. */
  lemma TurnDescends(hood: string -> Neighborhood, root: string, depth: int, blocked: set<string>,
                     universe: set<string>, s: Turns)
    requires Covers(hood, root, universe) && s.queue != [] && s.visited <= Visitable(universe)
    requires OwnHoods(hood, s.listed)
    ensures
      var t := Turn(hood, root, depth, blocked, s);
      && t.visited <= Visitable(universe) && OwnHoods(hood, t.listed)
      && (s.visited < t.visited || (t.visited == s.visited && |t.queue| < |s.queue|))
  {
    hide News, Forward;
    var e := s.queue[0];
    var t := Turn(hood, root, depth, blocked, s);
    var adjacent := if t.listed == [] then [] else Forward(t.listed[|t.listed| - 1], e.dir);
    var news := News(s.visited, adjacent, e.dir);
    NewsMeaning(s.visited, adjacent, e.dir);
    assert e.dir == Up || e.dir == Down;
    if news != [] {
      assert news[0] in news;
    }
  }

  lemma StartVisitable(root: string, universe: set<string>)
    requires root in universe
    ensures Start(root).visited <= Visitable(universe)
  {}

  /** The loop of the in-memory index: until the queue is empty. */
  method TraverseAll(hood: string -> Neighborhood, root: string, depth: int, blocked: set<string>,
                     ghost universe: set<string>) returns (listed: seq<Neighborhood>)
    requires Covers(hood, root, universe)
    ensures IsTraversal(hood, root, depth, blocked, listed)
  {
    hide Turn, Visitable;
    var s, emitted, neighborhood := Start(root), {}, None;
    ghost var n := 0;
    StartVisitable(root, universe);
    while s.queue != []
      invariant s == AfterTurns(hood, root, depth, blocked, n) && emitted == Emitted(s.listed)
      invariant s.listed != [] ==> neighborhood == Some(s.listed[|s.listed| - 1])
      invariant s.visited <= Visitable(universe) && OwnHoods(hood, s.listed)
      decreases Visitable(universe) - s.visited, |s.queue|
    {
      TurnDescends(hood, root, depth, blocked, universe, s);
      s, emitted, neighborhood := TakeTurn(hood, root, depth, blocked, s, emitted, neighborhood);
      n := n + 1;
    }
    listed := s.listed;
  }

  /** The loop of the Neo4j index: until the queue is empty or `maxNeighborhoods` are listed. */
  method TraverseCapped(hood: string -> Neighborhood, root: string, depth: int, blocked: set<string>,
                        maxNeighborhoods: int, ghost universe: set<string>) returns (listed: seq<Neighborhood>)
    requires Covers(hood, root, universe)
    ensures exists n: nat :: IsCappedAt(hood, root, depth, blocked, maxNeighborhoods, listed, n)
  {
    hide Turn, Visitable;
    var s, emitted, neighborhood := Start(root), {}, None;
    ghost var n: nat := 0;
    StartVisitable(root, universe);
    while s.queue != [] && |s.listed| < maxNeighborhoods
      invariant s == AfterTurns(hood, root, depth, blocked, n) && emitted == Emitted(s.listed)
      invariant s.listed != [] ==> neighborhood == Some(s.listed[|s.listed| - 1])
      invariant s.visited <= Visitable(universe) && OwnHoods(hood, s.listed)
      invariant forall k: nat :: k < n ==>
                  AfterTurns(hood, root, depth, blocked, k).queue != []
                  && |AfterTurns(hood, root, depth, blocked, k).listed| < maxNeighborhoods
      decreases Visitable(universe) - s.visited, |s.queue|
    {
      TurnDescends(hood, root, depth, blocked, universe, s);
      s, emitted, neighborhood := TakeTurn(hood, root, depth, blocked, s, emitted, neighborhood);
      n := n + 1;
    }
    listed := s.listed;
    assert IsCappedAt(hood, root, depth, blocked, maxNeighborhoods, listed, n);
  }
}
