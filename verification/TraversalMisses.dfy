/** What the traversal misses: a symbol is expanded with the neighbourhood listed last, which is its own only by luck
    when it was listed earlier. */
module TraversalMisses {
  import opened GraphState
  import opened Options
  import opened Ordering
  import opened Traversal
  import opened Walks

  // ---- Exactly when a symbol with one way to it is listed ----

  /** The turn after `k` others expands in direction `dir` while `x` is the symbol listed last. */
  ghost predicate ReadsOff(hood: string -> Neighborhood, root: string, depth: int, blocked: set<string>, k: nat,
                           x: string, dir: Direction) {
    var s := AfterTurns(hood, root, depth, blocked, k);
    && s.queue != [] && Open(root, blocked, s.queue[0].id) && s.queue[0].depth < depth && s.queue[0].dir == dir
    && Shown(hood, s)[|Shown(hood, s)| - 1].symbolId == x
  }

  /** Only as a neighbour of `x` in direction `dir` is `b` ever met. */
  ghost predicate OnlyThrough(hood: string -> Neighborhood, b: string, x: string, dir: Direction) {
    forall y, d :: b in Forward(hood(y), d) <==> y == x && d == dir
  }

  ghost predicate Waits(queue: seq<Entry>, v: string) {
    exists i :: 0 <= i < |queue| && queue[i].id == v
  }

  /** Whatever was visited waits in the queue, is blocked or has been listed; nothing else has. */
  ghost predicate Settled(hood: string -> Neighborhood, root: string, blocked: set<string>, s: Turns) {
    && (forall v, d :: (v, d) in s.visited && Open(root, blocked, v) ==>
          v in Emitted(s.listed) || Waits(s.queue, v))
    && (forall v :: v in Emitted(s.listed) ==> (v, Up) in s.visited || (v, Down) in s.visited)
    && (forall i :: 0 <= i < |s.queue| ==> (s.queue[i].id, s.queue[i].dir) in s.visited)
    && (forall i :: 0 <= i < |s.listed| ==> s.listed[i] == hood(s.listed[i].symbolId))
  }

  lemma AdmitSettles(hood: string -> Neighborhood, root: string, blocked: set<string>, s: Turns, adjacent: seq<string>,
                     depth: int, dir: Direction)
    requires Settled(hood, root, blocked, s)
    ensures Settled(hood, root, blocked, Admit(s, adjacent, depth, dir))
    ensures forall v, d :: (v, d) in Admit(s, adjacent, depth, dir).visited <==>
              (v, d) in s.visited || (d == dir && v in adjacent)
  {
    hide Open, News;
    var news := News(s.visited, adjacent, dir);
    var t := Admit(s, adjacent, depth, dir);
    NewsMeaning(s.visited, adjacent, dir);
    forall v, d | (v, d) in t.visited && Open(root, blocked, v)
      ensures v in Emitted(t.listed) || Waits(t.queue, v)
    {
      if (v, d) in s.visited {
        if v !in Emitted(s.listed) {
          var i :| 0 <= i < |s.queue| && s.queue[i].id == v;
          assert t.queue[i].id == v;
        }
      } else {
        var i :| 0 <= i < |news| && news[i] == v;
        assert t.queue[|s.queue| + i].id == v;
      }
    }
    forall i | 0 <= i < |t.queue|
      ensures (t.queue[i].id, t.queue[i].dir) in t.visited
    {
      if i >= |s.queue| {
        assert t.queue[i] == Entry(news[i - |s.queue|], depth, dir);
      }
    }
  }

  /** The head of the queue is taken, and listed unless it is blocked. */
  lemma ShownSettles(hood: string -> Neighborhood, root: string, blocked: set<string>, s: Turns)
    requires Settled(hood, root, blocked, s) && s.queue != [] && forall x :: hood(x).symbolId == x
    ensures !Open(root, blocked, s.queue[0].id) ==> Settled(hood, root, blocked, s.(queue := s.queue[1..]))
    ensures Open(root, blocked, s.queue[0].id) ==>
              Settled(hood, root, blocked, s.(queue := s.queue[1..], listed := Shown(hood, s)))
  {
    hide Open;
    var e := s.queue[0];
    if e.id !in Emitted(s.listed) {
      EmittedGrows(s.listed, hood(e.id));
    }
    forall v | v != e.id && Waits(s.queue, v)
      ensures Waits(s.queue[1..], v)
    {
      var i :| 0 <= i < |s.queue| && s.queue[i].id == v;
      assert s.queue[1..][i - 1].id == v;
    }
    assert e.dir == Up || e.dir == Down;
  }

  lemma TurnSettles(hood: string -> Neighborhood, root: string, depth: int, blocked: set<string>, s: Turns)
    requires Settled(hood, root, blocked, s) && s.queue != [] && forall x :: hood(x).symbolId == x
    ensures
      var t := Turn(hood, root, depth, blocked, s);
      var e := s.queue[0];
      && Settled(hood, root, blocked, t)
      && forall v, d :: (v, d) in t.visited <==>
           || (v, d) in s.visited
           || (Open(root, blocked, e.id) && e.depth < depth && d == e.dir
               && v in Forward(Shown(hood, s)[|Shown(hood, s)| - 1], d))
  {
    hide Settled, Forward, Admit;
    var e := s.queue[0];
    ShownSettles(hood, root, blocked, s);
    if Open(root, blocked, e.id) {
      var shown := s.(queue := s.queue[1..], listed := Shown(hood, s));
      var adjacent := Forward(Shown(hood, s)[|Shown(hood, s)| - 1], e.dir);
      AdmitSettles(hood, root, blocked, shown, adjacent, e.depth + 1, e.dir);
    }
  }

  predicate Met(s: Turns, b: string) {
    (b, Up) in s.visited || (b, Down) in s.visited
  }

  lemma AtTheStart(hood: string -> Neighborhood, root: string, depth: int, blocked: set<string>, b: string)
    ensures Settled(hood, root, blocked, AfterTurns(hood, root, depth, blocked, 0))
    ensures b != root ==> !Met(AfterTurns(hood, root, depth, blocked, 0), b)
  {
    assert Start(root).queue[0].id == root;
  }

  lemma LastShown(hood: string -> Neighborhood, root: string, blocked: set<string>, s: Turns)
    requires Settled(hood, root, blocked, s) && s.queue != [] && forall x :: hood(x).symbolId == x
    ensures Shown(hood, s) != []
    ensures var last := Shown(hood, s)[|Shown(hood, s)| - 1]; last == hood(last.symbolId)
  {}

  lemma TurnMeets(hood: string -> Neighborhood, root: string, depth: int, blocked: set<string>, b: string, x: string,
                  dir: Direction, n: nat)
    requires OnlyThrough(hood, b, x, dir) && forall y :: hood(y).symbolId == y
    requires Settled(hood, root, blocked, AfterTurns(hood, root, depth, blocked, n))
    ensures Settled(hood, root, blocked, AfterTurns(hood, root, depth, blocked, n + 1))
    ensures Met(AfterTurns(hood, root, depth, blocked, n + 1), b) <==>
            Met(AfterTurns(hood, root, depth, blocked, n), b) || ReadsOff(hood, root, depth, blocked, n, x, dir)
  {
    hide Turn, Settled, Open, Forward, Shown;
    var s := AfterTurns(hood, root, depth, blocked, n);
    if s.queue != [] {
      var e := s.queue[0];
      TurnSettles(hood, root, depth, blocked, s);
      LastShown(hood, root, blocked, s);
      var last := Shown(hood, s)[|Shown(hood, s)| - 1];
      assert b in Forward(hood(last.symbolId), e.dir) <==> last.symbolId == x && e.dir == dir;
      assert e.dir == Up || e.dir == Down;
    }
  }

  lemma {:induction false} VisitedIffRead(hood: string -> Neighborhood, root: string, depth: int, blocked: set<string>,
                                          b: string, x: string, dir: Direction, n: nat)
    requires OnlyThrough(hood, b, x, dir) && b != root && forall y :: hood(y).symbolId == y
    ensures Settled(hood, root, blocked, AfterTurns(hood, root, depth, blocked, n))
    ensures Met(AfterTurns(hood, root, depth, blocked, n), b) <==>
            exists k: nat :: k < n && ReadsOff(hood, root, depth, blocked, k, x, dir)
  {
    hide Settled, ReadsOff, OnlyThrough, Met, AfterTurns;
    if n == 0 {
      AtTheStart(hood, root, depth, blocked, b);
    } else {
      VisitedIffRead(hood, root, depth, blocked, b, x, dir, n - 1);
      TurnMeets(hood, root, depth, blocked, b, x, dir, n - 1);
    }
  }

  lemma SettledAtTheEnd(hood: string -> Neighborhood, root: string, blocked: set<string>, s: Turns, b: string)
    requires Settled(hood, root, blocked, s) && s.queue == [] && Open(root, blocked, b)
    ensures b in Emitted(s.listed) <==> Met(s, b)
  {}

  /** Whatever the graph: a symbol with a single way to it, from `x` in one direction, is listed exactly when some
      symbol is expanded in that direction while `x` is the one listed last. */
  lemma SoleNeighbourIff(hood: string -> Neighborhood, root: string, depth: int, blocked: set<string>, b: string,
                         x: string, dir: Direction, r: seq<Neighborhood>)
    requires OnlyThrough(hood, b, x, dir) && b != root && b !in blocked && forall y :: hood(y).symbolId == y
    requires IsTraversal(hood, root, depth, blocked, r)
    ensures b in Emitted(r) <==> exists k: nat :: ReadsOff(hood, root, depth, blocked, k, x, dir)
  {
    hide AfterTurns, OnlyThrough, Settled, Emitted, Turn;
    var n: nat :| AfterTurns(hood, root, depth, blocked, n).queue == []
                  && r == AfterTurns(hood, root, depth, blocked, n).listed;
    VisitedIffRead(hood, root, depth, blocked, b, x, dir, n);
    SettledAtTheEnd(hood, root, blocked, AfterTurns(hood, root, depth, blocked, n), b);
    forall k: nat | ReadsOff(hood, root, depth, blocked, k, x, dir)
      ensures k < n
    {
      if n <= k {
        ListingGrows(hood, root, depth, blocked, n, k);
      }
    }
  }

  // ---- A call graph with an overlap ----

  function Caller(id: string, calls: seq<string>): Change {
    Put(Upsert(id, calls, [], [], [], [], None, "regex"))
  }

  /** `r` calls `a`, `a` calls `b` and `r`, `z` calls `r`: `a` lies in both cones of `r`. */
  function ClashIndex(): Graph {
    After([Caller("r", ["a"]), Caller("a", ["b", "r"]), Caller("z", ["r"])])
  }

  function Clash(): string -> Neighborhood {
    Hood(ClashIndex())
  }

  lemma AtCalled(g: Graph, id: string, calls: seq<string>, k: string)
    ensures
      var h := Applied(g, Caller(id, calls));
      && At(h.downstream, k) == (if k == id then At(g.downstream, k) + Elements(calls) else At(g.downstream, k))
      && At(h.upstream, k) == At(g.upstream, k) + (if k in calls then {id} else {})
      && At(h.uses, k) == At(g.uses, k) && At(h.usedBy, k) == At(g.usedBy, k)
  {
    hide At, AddToEach, Extend;
    var u := Caller(id, calls).u;
    assert Elements<string>([]) == {} && Used(u) == {};
    AtUpserted(g.downstream, g.upstream, id, Elements(calls), {}, k);
    AtUpserted(g.uses, g.usedBy, id, {}, {}, k);
  }

  lemma AfterThree(a: Change, b: Change, c: Change)
    ensures After([a, b, c]) == Applied(Applied(Applied(EMPTY, a), b), c)
  {
    hide Applied;
    assert [a, b, c][..2] == [a, b] && [a, b][..1] == [a] && [a][..0] == [];
    assert After([a]) == Applied(EMPTY, a);
    assert After([a, b]) == Applied(After([a]), b);
  }

  function ClashUp(k: string): set<string> {
    if k == "r" then {"a", "z"} else if k == "a" then {"r"} else if k == "b" then {"a"} else {}
  }

  function ClashDown(k: string): set<string> {
    if k == "r" then {"a"} else if k == "a" then {"b", "r"} else if k == "z" then {"r"} else {}
  }

  lemma ClashLinks(k: string)
    ensures At(ClashIndex().upstream, k) == ClashUp(k) && At(ClashIndex().downstream, k) == ClashDown(k)
    ensures At(ClashIndex().usedBy, k) == {} && At(ClashIndex().uses, k) == {}
  {
    hide Applied, At, Caller;
    var r, a, z := Caller("r", ["a"]), Caller("a", ["b", "r"]), Caller("z", ["r"]);
    AfterThree(r, a, z);
    AtCalled(EMPTY, "r", ["a"], k);
    AtCalled(Applied(EMPTY, r), "a", ["b", "r"], k);
    AtCalled(Applied(Applied(EMPTY, r), a), "z", ["r"], k);
    NothingAt(k);
    assert Elements(["a"]) == {"a"} && Elements(["b", "r"]) == {"b", "r"} && Elements(["r"]) == {"r"};
  }

  lemma NothingAt(k: string)
    ensures At(map[], k) == {}
  {}

  lemma SortedOf(xs: seq<string>)
    requires Ascending(xs)
    ensures Sorted(Elements(xs)) == xs
  {
    AscendingIsUnique(Sorted(Elements(xs)), xs);
  }

  lemma SortedFew(x: string, y: string)
    requires Leq(x, y) && x != y
    ensures Sorted({x, y}) == [x, y] && Sorted({x}) == [x] && Sorted({}) == []
  {
    assert Elements([x, y]) == {x, y} && Elements([x]) == {x} && Elements<string>([]) == {};
    SortedOf([x, y]);
    SortedOf([x]);
    SortedOf([]);
  }

  lemma ClashHoods()
    ensures Clash()("r") == Neighborhood("r", ["a", "z"], ["a"], [], [])
    ensures Clash()("a") == Neighborhood("a", ["r"], ["b", "r"], [], [])
    ensures Clash()("z") == Neighborhood("z", [], ["r"], [], [])
    ensures forall x :: Clash()(x).symbolId == x
  {
    hide ClashIndex, Sorted, At;
    ClashLinks("r");
    ClashLinks("a");
    ClashLinks("z");
    SortedFew("a", "z");
    SortedFew("b", "r");
    SortedFew("r", "z");
  }

  lemma NewsAppend(visited: set<(string, Direction)>, xs: seq<string>, x: string, dir: Direction)
    ensures News(visited, xs + [x], dir) ==
            if (x, dir) in visited || x in News(visited, xs, dir) then News(visited, xs, dir)
            else News(visited, xs, dir) + [x]
  {
    assert (xs + [x])[..|xs|] == xs;
  }

  lemma ClashTurn(s: Turns, t: Turns, adjacent: seq<string>, news: seq<string>)
    requires s.queue != [] && s.queue[0].depth < 2 && News(s.visited, adjacent, s.queue[0].dir) == news
    requires t.listed == if s.queue[0].id in Emitted(s.listed) then s.listed else s.listed + [Clash()(s.queue[0].id)]
    requires adjacent == Forward(t.listed[|t.listed| - 1], s.queue[0].dir)
    requires t.queue == s.queue[1..] + Entries(news, s.queue[0].depth + 1, s.queue[0].dir)
    requires t.visited == s.visited + Paired(news, s.queue[0].dir)
    ensures Turn(Clash(), "r", 2, {}, s) == t
  {
    hide Clash, News, Forward, Emitted;
  }

  const VISITED_1: set<(string, Direction)> := {("r", Up), ("r", Down), ("a", Up), ("z", Up)}
  const VISITED_2: set<(string, Direction)> := {("r", Up), ("r", Down), ("a", Up), ("z", Up), ("a", Down)}
  const CLASH_1: Turns := Turns([Entry("r", 0, Down), Entry("a", 1, Up), Entry("z", 1, Up)], VISITED_1, [Clash()("r")])
  const CLASH_2: Turns := Turns([Entry("a", 1, Up), Entry("z", 1, Up), Entry("a", 1, Down)], VISITED_2, [Clash()("r")])
  const CLASH_3: Turns := Turns([Entry("z", 1, Up), Entry("a", 1, Down)], VISITED_2, [Clash()("r"), Clash()("a")])
  const CLASH_4: Turns := Turns([Entry("a", 1, Down)], VISITED_2, [Clash()("r"), Clash()("a"), Clash()("z")])
  const CLASH_5: Turns := Turns([], VISITED_2, [Clash()("r"), Clash()("a"), Clash()("z")])

  lemma OneEmitted(n: Neighborhood)
    ensures Emitted([n]) == {n.symbolId}
  {
    EmittedGrows([], n);
    assert [n] == [] + [n];
  }

  lemma ClashLists()
    ensures Forward(Clash()("r"), Up) == ["a"] + ["z"] && Forward(Clash()("r"), Down) == [] + ["a"]
    ensures Forward(Clash()("a"), Up) == [] + ["r"]
    ensures Forward(Clash()("z"), Up) == [] && Forward(Clash()("z"), Down) == [] + ["r"]
    ensures forall x :: Clash()(x).symbolId == x
  {
    hide Clash;
    ClashHoods();
  }

  lemma ClashTurn1()
    ensures Turn(Clash(), "r", 2, {}, Start("r")) == CLASH_1
  {
    hide Turn, Clash, Forward, News, Emitted;
    ClashLists();
    NothingEmitted();
    NoNews(Start("r").visited, Up);
    NewsAppend(Start("r").visited, [], "a", Up);
    NewsAppend(Start("r").visited, ["a"], "z", Up);
    assert [] + ["a"] == ["a"];
    ClashTurn(Start("r"), CLASH_1, ["a"] + ["z"], ["a", "z"]);
  }

  lemma NothingEmitted()
    ensures Emitted([]) == {}
  {}

  lemma NoNews(visited: set<(string, Direction)>, dir: Direction)
    ensures News(visited, [], dir) == []
  {}

  lemma ClashTurn2()
    ensures Turn(Clash(), "r", 2, {}, CLASH_1) == CLASH_2
  {
    hide Turn, Clash, Forward, News, Emitted;
    ClashLists();
    OneEmitted(Clash()("r"));
    NoNews(VISITED_1, Down);
    NewsAppend(VISITED_1, [], "a", Down);
    ClashTurn(CLASH_1, CLASH_2, [] + ["a"], ["a"]);
  }

  lemma ClashTurn3()
    ensures Turn(Clash(), "r", 2, {}, CLASH_2) == CLASH_3
  {
    hide Turn, Clash, Forward, News, Emitted;
    ClashLists();
    OneEmitted(Clash()("r"));
    NoNews(VISITED_2, Up);
    NewsAppend(VISITED_2, [], "r", Up);
    ClashTurn(CLASH_2, CLASH_3, [] + ["r"], []);
  }

  lemma ClashTurn4()
    ensures Turn(Clash(), "r", 2, {}, CLASH_3) == CLASH_4
  {
    hide Turn, Clash, Forward, News, Emitted;
    ClashLists();
    OneEmitted(Clash()("r"));
    EmittedGrows([Clash()("r")], Clash()("a"));
    NoNews(VISITED_2, Up);
    assert CLASH_3.listed == [Clash()("r")] + [Clash()("a")];
    ClashTurn(CLASH_3, CLASH_4, [], []);
  }

  lemma ClashTurn5()
    ensures Turn(Clash(), "r", 2, {}, CLASH_4) == CLASH_5
  {
    hide Turn, Clash, Forward, News;
    ClashLists();
    NoNews(VISITED_2, Down);
    NewsAppend(VISITED_2, [], "r", Down);
    assert CLASH_4.listed[1].symbolId == "a";
    ClashTurn(CLASH_4, CLASH_5, [] + ["r"], []);
  }

  lemma ClashLastTurns()
    ensures AfterTurns(Clash(), "r", 2, {}, 5) == CLASH_5
  {
    hide Turn;
    ClashTurn1();
    ClashTurn2();
    ClashTurn3();
    ClashTurn4();
    ClashTurn5();
    assert AfterTurns(Clash(), "r", 2, {}, 1) == CLASH_1;
    assert AfterTurns(Clash(), "r", 2, {}, 3) == CLASH_3;
  }

  /** The second turn of `a` goes down from `z`, the symbol listed last, and never finds `b`. */
  lemma ClashIsMissed()
    ensures IsTraversal(Clash(), "r", 2, {}, [Clash()("r"), Clash()("a"), Clash()("z")])
    ensures InCone(Clash(), "r", {}, {"r", "a", "z", "b"}, "b", Down, 2)
    ensures "b" !in Emitted([Clash()("r"), Clash()("a"), Clash()("z")])
  {
    hide AfterTurns, Clash, InCone;
    ClashLastTurns();
    ClashHoods();
    assert AfterTurns(Clash(), "r", 2, {}, 5).queue == [];
    assert CLASH_5.listed == [Clash()("r"), Clash()("a"), Clash()("z")];
    ClashCone();
  }

  lemma ClashCone()
    ensures InCone(Clash(), "r", {}, {"r", "a", "z", "b"}, "b", Down, 2)
  {
    hide Clash;
    ClashHoods();
    var edges := DirectedPairs(Clash(), "r", {}, {"r", "a", "z", "b"}, Down);
    assert Forward(Clash()("r"), Down)[0] == "a" && Forward(Clash()("a"), Down)[0] == "b";
    var w := ["r", "a", "b"];
    assert IsWalk(edges, w);
  }
}
