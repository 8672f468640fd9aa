/** Searches over the union of the four neighbour relations: `_find_path_bfs` and the frontier loop of
    `find_warnings_in_blast_radius`. */
module PathSearch {
  import opened Walks
  import opened Options
  import opened Ordering
  import opened GraphState
  import opened LayeredSearch
  import opened PathOrder

  lemma ExtendedAgrees(edges: set<(string, string)>, start: string, queue: Paths<string>, s: Layers<string>,
                       news: seq<string>)
    requires QueueAgrees(edges, start, queue, s) && queue != [] && AreNews(edges, s, news)
    ensures QueueAgrees(edges, start, queue[1..] + Extended(queue[0].1, news), Expand(s, news))
  {
    var q, t := queue[1..] + Extended(queue[0].1, news), Expand(s, news);
    var n := |queue| - 1;
    forall i | 0 <= i < |q|
      ensures Joins(edges, q[i].1, start, q[i].0) && t.queue[i] == Item(q[i].0, |q[i].1| - 1)
    {
      if i < n {
        assert q[i] == queue[i + 1] && t.queue[i] == s.queue[i + 1];
      } else {
        assert news[i - n] in news;
        assert q[i] == (news[i - n], queue[0].1 + [news[i - n]]);
        assert t.queue[i] == Item(news[i - n], s.queue[0].depth + 1);
      }
    }
  }

  lemma DropAgrees(edges: set<(string, string)>, start: string, queue: Paths<string>, s: Layers<string>)
    requires QueueAgrees(edges, start, queue, s) && queue != []
    ensures QueueAgrees(edges, start, queue[1..], Drop(s))
  {}

  ghost predicate NextToNone(edges: set<(string, string)>, s: Layers<string>, target: string) {
    forall x :: x in s.expanded ==> (x, target) !in edges
  }

  /** The inner loop: neighbours not visited before go to the back of the queue, unless the target turns up. */
  method LookAround(neighbors: seq<string>, target: string, path: seq<string>, queue: Paths<string>,
                    visited: set<string>)
      returns (queue': Paths<string>, visited': set<string>, hit: bool, ghost news: seq<string>)
    ensures hit <==> target in neighbors
    ensures !hit ==> queue' == queue + Extended(path, news) && visited' == visited + Elements(news)
    ensures !hit ==> forall b :: b in news ==> b in neighbors && b !in visited
    ensures !hit ==> forall b :: b in neighbors ==> b in news || b in visited
    ensures !hit ==> InListOrder(neighbors, news)
  {
    hide InListOrder;
    queue', visited', hit, news := queue, visited, false, [];
    assert InListOrder(neighbors, []) by { NoneInOrder(neighbors); }
    for i := 0 to |neighbors|
      invariant queue' == queue + Extended(path, news) && visited' == visited + Elements(news)
      invariant forall b :: b in news ==> b in neighbors[..i] && b !in visited
      invariant InListOrder(neighbors, news)
      invariant forall j :: 0 <= j < i ==> neighbors[j] != target && neighbors[j] in visited'
    {
      if neighbors[i] == target {
        hit := true;
        return;
      }
      if neighbors[i] !in visited' {
        OneMoreInOrder(neighbors, news, i);
        ElementsConcat(news, [neighbors[i]]);
        assert Extended(path, news + [neighbors[i]]) == Extended(path, news) + [(neighbors[i], path + [neighbors[i]])];
        queue', visited' := queue' + [(neighbors[i], path + [neighbors[i]])], visited' + {neighbors[i]};
        news := news + [neighbors[i]];
      }
    }
  }

  lemma NoneInOrder(list: seq<string>)
    ensures InListOrder(list, [])
  {}

  /** The neighbours of a symbol in the order the program looks at them. */
  function Listed(g: Graph): string -> seq<string> {
    id => AllOf(BlastRadius(g, id))
  }

  lemma StartAgrees(edges: set<(string, string)>, start: string, limit: int, target: string)
    ensures
      var s := Layers([Item(start, 0)], {start}, {}, {});
      && Inv(edges, {start}, s, limit) && QueueAgrees(edges, start, [(start, [start])], s)
      && NextToNone(edges, s, target)
  {
    StartDistance(edges, {start}, start);
    hide AtDistance;
    var s := Layers([Item(start, 0)], {start}, {}, {});
    assert s.queue[0].node == start;
  }

  lemma NewsOfList(g: Graph, s: Layers<string>, neighbors: seq<string>, news: seq<string>)
    requires s.queue != [] && neighbors == AllOf(BlastRadius(g, s.queue[0].node))
    requires forall b :: b in news ==> b in neighbors && b !in s.visited
    requires forall b :: b in neighbors ==> b in news || b in s.visited
    ensures AreNews(AdjacentPairs(g), s, news)
  {
    hide BlastRadius, AllOf, AdjacentPairs, Adjacent;
    forall b
      ensures b in neighbors <==> (s.queue[0].node, b) in AdjacentPairs(g)
    {
      ListedIsAdjacent(g, s.queue[0].node, b);
      AdjacentIsPair(g, s.queue[0].node, b);
    }
  }

  lemma TargetListed(g: Graph, a: string, b: string)
    ensures b in AllOf(BlastRadius(g, a)) <==> (a, b) in AdjacentPairs(g)
  {
    ListedIsAdjacent(g, a, b);
    AdjacentIsPair(g, a, b);
  }

  /** Everything the search can ever visit. */
  ghost function Universe(edges: set<(string, string)>, start: string): set<string> {
    {start} + set e | e in edges :: e.1
  }

  ghost predicate Searching(edges: set<(string, string)>, start: string, target: string, limit: int,
                            queue: Paths<string>, visited: set<string>, s: Layers<string>) {
    && Inv(edges, {start}, s, limit) && QueueAgrees(edges, start, queue, s) && visited == s.visited
    && NextToNone(edges, s, target) && visited <= Universe(edges, start)
  }

  lemma StartSearching(edges: set<(string, string)>, start: string, target: string, limit: int)
    ensures Searching(edges, start, target, limit, [(start, [start])], {start},
                      Layers([Item(start, 0)], {start}, {}, {}))
  {
    hide Inv, QueueAgrees;
    StartAgrees(edges, start, limit, target);
  }

  lemma HeadOfQueue(edges: set<(string, string)>, start: string, target: string, limit: int,
                    queue: Paths<string>, visited: set<string>, s: Layers<string>)
    requires Searching(edges, start, target, limit, queue, visited, s) && queue != []
    ensures s.queue != [] && s.queue[0] == Item(queue[0].0, |queue[0].1| - 1) && s.visited == visited
  {
    hide Inv, Joins;
  }

  lemma VisitedInUniverse(edges: set<(string, string)>, start: string, target: string, limit: int,
                          queue: Paths<string>, visited: set<string>, s: Layers<string>)
    requires Searching(edges, start, target, limit, queue, visited, s)
    ensures visited <= Universe(edges, start)
  {}

  lemma DropSearching(edges: set<(string, string)>, start: string, target: string, limit: int,
                      queue: Paths<string>, visited: set<string>, s: Layers<string>)
    requires Searching(edges, start, target, limit, queue, visited, s) && queue != [] && |queue[0].1| - 1 >= limit
    ensures Searching(edges, start, target, limit, queue[1..], visited, Drop(s))
  {
    hide Inv, Joins, Universe;
    DropAgrees(edges, start, queue, s);
    DropKeeps(edges, {start}, s, limit);
  }

  lemma ExpandSearching(edges: set<(string, string)>, start: string, target: string, limit: int,
                        queue: Paths<string>, visited: set<string>, s: Layers<string>, news: seq<string>)
    requires Searching(edges, start, target, limit, queue, visited, s) && queue != [] && |queue[0].1| - 1 < limit
    requires AreNews(edges, s, news) && (queue[0].0, target) !in edges
    ensures Searching(edges, start, target, limit, queue[1..] + Extended(queue[0].1, news), visited + Elements(news),
                      Expand(s, news))
  {
    hide Inv, Joins;
    ExtendedAgrees(edges, start, queue, s, news);
    ExpandKeeps(edges, {start}, s, limit, news);
  }

  /** Pulling the head off the queue, or expanding it, keeps the paths ranked. */
  lemma DropStaysRanked(edges: set<(string, string)>, next: string -> seq<string>, start: string, queue: Paths<string>)
    requires Ranked(edges, next, start, queue) && queue != []
    ensures Ranked(edges, next, start, queue[1..])
  {
    hide Ranked;
    TailRanked(edges, next, start, queue);
  }

  lemma ExpandStaysRanked(edges: set<(string, string)>, next: string -> seq<string>, start: string, target: string,
                          limit: int, queue: Paths<string>, visited: set<string>, s: Layers<string>, news: seq<string>)
    requires Searching(edges, start, target, limit, queue, visited, s) && queue != [] && |queue[0].1| - 1 < limit
    requires Ranked(edges, next, start, queue) && AreNews(edges, s, news) && InListOrder(next(queue[0].0), news)
    ensures Ranked(edges, next, start, queue[1..] + Extended(queue[0].1, news))
  {
    hide Inv, Ranked, QueueAgrees, InListOrder, Universe;
    ExpandRanked(edges, next, start, queue, s, limit, news);
  }

  lemma HitIsFirstWalk(edges: set<(string, string)>, next: string -> seq<string>, start: string, target: string,
                       limit: int, queue: Paths<string>, visited: set<string>, s: Layers<string>)
    requires Searching(edges, start, target, limit, queue, visited, s) && queue != [] && |queue[0].1| - 1 < limit
    requires Ranked(edges, next, start, queue)
    ensures IsFirst(edges, next, start, queue[0].1 + [target], target)
  {
    hide Inv, Ranked, QueueAgrees, IsFirst, Universe;
    HitIsFirst(edges, next, start, queue, s, limit, target);
  }

  /** The first hit closes a shortest walk. */
  lemma HitIsShortest(edges: set<(string, string)>, start: string, target: string, limit: int,
                      queue: Paths<string>, visited: set<string>, s: Layers<string>)
    requires Searching(edges, start, target, limit, queue, visited, s) && queue != [] && |queue[0].1| - 1 < limit
    requires (queue[0].0, target) in edges
    ensures Joins(edges, queue[0].1 + [target], start, target) && 1 <= |queue[0].1| <= limit
    ensures forall w :: Joins(edges, w, start, target) && |w| > 1 ==> |queue[0].1| + 1 <= |w|
  {
    hide Inv;
    var path := queue[0].1;
    assert Joins(edges, path, start, queue[0].0) && s.queue[0] == Item(queue[0].0, |path| - 1);
    forall w | Joins(edges, w, start, target) && |w| > 1
      ensures |path| + 1 <= |w|
    {
      FirstHitIsShortest(edges, {start}, s, limit, target, w);
    }
  }

  lemma NothingInReach(edges: set<(string, string)>, start: string, target: string, limit: int,
                       visited: set<string>, s: Layers<string>)
    requires Searching(edges, start, target, limit, [], visited, s)
    ensures forall w :: Joins(edges, w, start, target) && |w| > 1 ==> |w| - 1 > limit
  {
    hide Inv;
    forall w | Joins(edges, w, start, target) && |w| > 1
      ensures |w| - 1 > limit
    {
      MissMeansFar(edges, {start}, s, limit, target, w);
    }
  }

  /** A shortest walk with at least one edge between the two symbols, if one has at most `maxDepth` edges; of several
      the first in the order in which neighbours are listed. */
  method FindPathBfs(g: Graph, fromSymbol: string, toSymbol: string, maxDepth: int) returns (found: Option<seq<string>>)
    ensures found.Some? ==>
              && Joins(AdjacentPairs(g), found.value, fromSymbol, toSymbol) && 1 <= |found.value| - 1 <= maxDepth
              && (forall w :: Joins(AdjacentPairs(g), w, fromSymbol, toSymbol) && |w| > 1 ==> |found.value| <= |w|)
              && IsFirst(AdjacentPairs(g), Listed(g), fromSymbol, found.value, toSymbol)
    ensures found.None? <==>
            forall w :: Joins(AdjacentPairs(g), w, fromSymbol, toSymbol) && |w| > 1 ==> |w| - 1 > maxDepth
  {
    hide Joins, Searching, AdjacentPairs, Adjacent, BlastRadius, AllOf, Universe, AreNews, Expand, Drop, Ranked,
         IsFirst, InListOrder;
    ghost var edges := AdjacentPairs(g);
    var queue: Paths<string> := [(fromSymbol, [fromSymbol])];
    var visited := {fromSymbol};
    ghost var s := Layers([Item(fromSymbol, 0)], {fromSymbol}, {}, {});
    StartSearching(edges, fromSymbol, toSymbol, maxDepth);
    StartRanked(edges, Listed(g), fromSymbol);
    while queue != []
      invariant Searching(edges, fromSymbol, toSymbol, maxDepth, queue, visited, s)
      invariant Ranked(edges, Listed(g), fromSymbol, queue)
      decreases Universe(edges, fromSymbol) - visited, |queue|
    {
      var (current, path) := queue[0];
      if |path| - 1 >= maxDepth {
        DropSearching(edges, fromSymbol, toSymbol, maxDepth, queue, visited, s);
        HeadOfQueue(edges, fromSymbol, toSymbol, maxDepth, queue, visited, s);
        DropStaysRanked(edges, Listed(g), fromSymbol, queue);
        queue, s := queue[1..], Drop(s);
        continue;
      }
      var neighbors := AllOf(BlastRadius(g, current));
      var hit;
      ghost var news;
      ghost var queue0, visited0 := queue, visited;
      queue, visited, hit, news := LookAround(neighbors, toSymbol, path, queue[1..], visited);
      TargetListed(g, current, toSymbol);
      if hit {
        HitIsShortest(edges, fromSymbol, toSymbol, maxDepth, queue0, visited0, s);
        HitIsFirstWalk(edges, Listed(g), fromSymbol, toSymbol, maxDepth, queue0, visited0, s);
        return Some(path + [toSymbol]);
      }
      HeadOfQueue(edges, fromSymbol, toSymbol, maxDepth, queue0, visited0, s);
      NewsOfList(g, s, neighbors, news);
      ExpandSearching(edges, fromSymbol, toSymbol, maxDepth, queue0, visited0, s, news);
      ExpandStaysRanked(edges, Listed(g), fromSymbol, toSymbol, maxDepth, queue0, visited0, s, news);
      s := Expand(s, news);
      VisitedInUniverse(edges, fromSymbol, toSymbol, maxDepth, queue, visited, s);
      assert news == [] ==> queue == queue0[1..];
      assert news != [] ==> news[0] in visited && news[0] !in visited0;
    }
    NothingInReach(edges, fromSymbol, toSymbol, maxDepth, visited, s);
    found := None;
  }

  // ---- The neighbourhood scanned for warnings ----

  /** The pairs the frontier loop follows: it passes over targets with an empty id. */
  ghost function NamedPairs(g: Graph): set<(string, string)> {
    set e | e in AdjacentPairs(g) && e.1 != ""
  }

  lemma NamedPairsOf(g: Graph, a: string, b: string)
    ensures (a, b) in NamedPairs(g) <==> b in AllOf(BlastRadius(g, a)) && b != ""
  {
    hide AdjacentPairs, BlastRadius, AllOf, Adjacent;
    TargetListed(g, a, b);
  }

  /** A walk of at most `k + 1` edges is the start alone or one edge longer than a walk of at most `k`. */
  lemma WithinStep(edges: set<(string, string)>, start: string, v: string, k: nat)
    requires Within(edges, {start}, v, k + 1)
    ensures v == start || exists u :: Within(edges, {start}, u, k) && (u, v) in edges
  {
    var w :| IsWalk(edges, w) && w[0] in {start} && w[|w| - 1] == v && |w| - 1 <= k + 1;
    if |w| > 1 {
      var q := w[..|w| - 1];
      assert IsWalk(edges, q) && q[0] in {start} && |q| - 1 <= k;
      assert (w[|w| - 2], w[|w| - 1]) in edges;
      assert Within(edges, {start}, w[|w| - 2], k);
    }
  }

  lemma WithinGrows(edges: set<(string, string)>, start: string, u: string, v: string, k: int, m: int)
    requires Within(edges, {start}, u, k) && (u == v || (u, v) in edges) && k + 1 <= m
    ensures Within(edges, {start}, v, m)
  {
    var w :| IsWalk(edges, w) && w[0] in {start} && w[|w| - 1] == u && |w| - 1 <= k;
    if u != v {
      assert IsWalk(edges, w + [v]);
    }
  }

  /** After `k` rounds: everything seen is within `k`, and only the frontier may have neighbours not yet seen. */
  ghost predicate Ball(edges: set<(string, string)>, start: string, seen: set<string>, frontier: set<string>, k: nat) {
    && start in seen
    && (forall v :: v in seen ==> Within(edges, {start}, v, k))
    && (forall u, v :: u in seen && u !in frontier && (u, v) in edges ==> v in seen)
  }

  /** Nothing within `k` is missing from a set that its own neighbours do not leave, or not before round `k`. */
  lemma {:induction false} NothingMissed(edges: set<(string, string)>, start: string, seen: set<string>,
                                         v: string, k: nat)
    requires start in seen && forall a, b :: a in seen && (a, b) in edges ==> b in seen
    requires Within(edges, {start}, v, k)
    ensures v in seen
  {
    var w :| IsWalk(edges, w) && w[0] in {start} && w[|w| - 1] == v && |w| - 1 <= k;
    WalkStaysInside(edges, seen, w);
  }

  ghost predicate Complete(edges: set<(string, string)>, start: string, seen: set<string>, k: nat) {
    forall v :: Within(edges, {start}, v, k) ==> v in seen
  }

  lemma RoundKeeps(edges: set<(string, string)>, start: string, seen: set<string>, frontier: set<string>,
                   seen': set<string>, next: set<string>, k: nat)
    requires Ball(edges, start, seen, frontier, k) && Complete(edges, start, seen, k) && frontier <= seen
    requires seen' == seen + next
    requires forall v :: v in next ==> exists u :: u in frontier && (u, v) in edges
    requires forall u, v :: u in frontier && (u, v) in edges ==> v in seen'
    ensures Ball(edges, start, seen', next, k + 1) && Complete(edges, start, seen', k + 1)
  {
    hide Within;
    forall v | v in seen'
      ensures Within(edges, {start}, v, k + 1)
    {
      if v in seen {
        WithinGrows(edges, start, v, v, k, k + 1);
      } else {
        var u :| u in frontier && (u, v) in edges;
        WithinGrows(edges, start, u, v, k, k + 1);
      }
    }
    forall v | Within(edges, {start}, v, k + 1)
      ensures v in seen'
    {
      WithinStep(edges, start, v, k);
    }
  }

  /** The entries of one symbol's four lists that have a name and were not seen before. */
  method Collect(entries: seq<string>, seen: set<string>, next: set<string>)
      returns (seen': set<string>, next': set<string>)
    ensures seen' == seen + set e | e in entries && e != ""
    ensures next' == next + set e | e in entries && e != "" && e !in seen
  {
    seen', next' := seen, next;
    for i := 0 to |entries|
      invariant seen' == seen + set e | e in entries[..i] && e != ""
      invariant next' == next + set e | e in entries[..i] && e != "" && e !in seen
    {
      assert entries[..i + 1] == entries[..i] + [entries[i]];
      if entries[i] != "" && entries[i] !in seen' {
        seen', next' := seen' + {entries[i]}, next' + {entries[i]};
      }
    }
    assert entries[..|entries|] == entries;
  }

  /** One hop: the frontier's neighbours join what was seen, the new ones form the next frontier. */
  method Hop(g: Graph, seen: set<string>, frontier: set<string>) returns (seen': set<string>, next: set<string>)
    ensures seen' == seen + next && next !! seen
    ensures forall v :: v in next ==> exists u :: u in frontier && (u, v) in NamedPairs(g)
    ensures forall u, v :: u in frontier && (u, v) in NamedPairs(g) ==> v in seen'
  {
    hide NamedPairs, BlastRadius, AllOf;
    seen', next := seen, {};
    var todo := frontier;
    while todo != {}
      invariant todo <= frontier && seen' == seen + next && next !! seen
      invariant forall v :: v in next ==> exists u :: u in frontier && (u, v) in NamedPairs(g)
      invariant forall u, v :: u in frontier - todo && (u, v) in NamedPairs(g) ==> v in seen'
    {
      var sym :| sym in todo;
      var entries := AllOf(BlastRadius(g, sym));
      ghost var next0 := next;
      seen', next := Collect(entries, seen', next);
      forall v
        ensures v in entries && v != "" <==> (sym, v) in NamedPairs(g)
      {
        NamedPairsOf(g, sym, v);
      }
      assert forall v :: v in next - next0 ==> (sym, v) in NamedPairs(g);
      todo := todo - {sym};
    }
  }

  /** `max(1, min(radius, 3))` */
  function Clamped(radius: int): (r: nat)
    ensures 1 <= r <= 3 && (r < radius ==> r == 3) && (radius < r ==> r == 1)
  {
    if radius < 1 then 1 else if radius > 3 then 3 else radius
  }

  /** The symbols whose warnings are listed: exactly those within the clamped radius, however early the
      frontier runs empty. */
  method SymbolsScanned(g: Graph, symbolId: string, radius: int) returns (scanned: Option<set<string>>)
    ensures scanned.None? <==> symbolId !in Nodes(g)
    ensures scanned.Some? ==>
              forall v :: v in scanned.value <==> Within(NamedPairs(g), {symbolId}, v, Clamped(radius))
  {
    hide NamedPairs, Within, Nodes, Ball, Complete;
    if symbolId !in Nodes(g) {
      return None;
    }
    ghost var edges := NamedPairs(g);
    var frontier, seen := {symbolId}, {symbolId};
    BallStart(edges, symbolId);
    for k := 0 to Clamped(radius)
      invariant Ball(edges, symbolId, seen, frontier, k) && Complete(edges, symbolId, seen, k) && frontier <= seen
    {
      ghost var seen0, frontier0 := seen, frontier;
      seen, frontier := Hop(g, seen, frontier);
      RoundKeeps(edges, symbolId, seen0, frontier0, seen, frontier, k);
      if frontier == {} {
        BallIsFull(edges, symbolId, seen, k + 1, Clamped(radius));
        return Some(seen);
      }
    }
    BallIsExact(edges, symbolId, seen, frontier, Clamped(radius));
    scanned := Some(seen);
  }

  lemma BallStart(edges: set<(string, string)>, start: string)
    ensures Ball(edges, start, {start}, {start}, 0) && Complete(edges, start, {start}, 0)
  {
    assert IsWalk(edges, [start]);
  }

  lemma BallIsExact(edges: set<(string, string)>, start: string, seen: set<string>, frontier: set<string>, k: nat)
    requires Ball(edges, start, seen, frontier, k) && Complete(edges, start, seen, k)
    ensures forall v :: v in seen <==> Within(edges, {start}, v, k)
  {
    hide Within;
  }

  /** With an empty frontier the symbols seen are closed, so they hold everything within any larger radius. */
  lemma BallIsFull(edges: set<(string, string)>, start: string, seen: set<string>, k: nat, m: nat)
    requires Ball(edges, start, seen, {}, k) && k <= m
    ensures forall v :: v in seen <==> Within(edges, {start}, v, m)
  {
    forall v | Within(edges, {start}, v, m)
      ensures v in seen
    {
      NothingMissed(edges, start, seen, v, m);
    }
    forall v | v in seen
      ensures Within(edges, {start}, v, m)
    {
      assert Within(edges, {start}, v, k);
    }
  }
}
