/** The traversal of the index itself: its two cones and its reach, said through the four dictionaries. */
module IndexTraversal {
  import opened GraphState
  import opened LayeredSearch
  import opened Ordering
  import opened PathOrder
  import opened Traversal
  import opened Walks

  /** What the index lists behind `x` in one direction: going up who calls or uses it, going down what it calls or
      uses. */
  predicate Follows(g: Graph, x: string, y: string, dir: Direction) {
    match dir
    case Up => y in At(g.upstream, x) || y in At(g.usedBy, x)
    case Down => y in At(g.downstream, x) || y in At(g.uses, x)
  }

  lemma SortedHas(s: set<string>, x: string)
    ensures x in Sorted(s) <==> x in s
  {
    assert x in Sorted(s) <==> x in Elements(Sorted(s));
  }

  /** The lists that a neighbourhood and the two walks are made of, with their order. */
  lemma ListsOfIndex(g: Graph, x: string)
    ensures var up, down := Sorted(At(g.upstream, x)), Sorted(At(g.downstream, x));
      var usedBy, uses := Sorted(At(g.usedBy, x)), Sorted(At(g.uses, x));
      && Hood(g)(x) == Neighborhood(x, up, down, usedBy, uses)
      && Forward(Hood(g)(x), Up) == up + usedBy && Forward(Hood(g)(x), Down) == down + uses
      && AllOf(Hood(g)(x)) == up + down + usedBy + uses
  {
    hide Sorted;
  }

  lemma ForwardFollows(g: Graph, x: string, y: string, dir: Direction)
    ensures y in Forward(Hood(g)(x), dir) <==> Follows(g, x, y, dir)
  {
    hide Sorted, At;
    ListsOfIndex(g, x);
    SortedHas(At(g.upstream, x), y);
    SortedHas(At(g.downstream, x), y);
    SortedHas(At(g.usedBy, x), y);
    SortedHas(At(g.uses, x), y);
  }

  /** What a turn puts in the queue stands in the order in which the neighbours are listed first. */
  lemma {:induction false} NewsInOrder(visited: set<(string, Direction)>, xs: seq<string>, dir: Direction)
    ensures InListOrder(xs, News(visited, xs, dir))
  {
    if xs != [] {
      var n := |xs| - 1;
      var front := xs[..n];
      NewsInOrder(visited, front, dir);
      NewsMeaning(visited, front, dir);
      FrontKeepsOrder(xs, News(visited, front, dir));
      if (xs[n], dir) !in visited && xs[n] !in News(visited, front, dir) {
        OneMoreInOrder(xs, News(visited, front, dir), n);
      }
    }
  }

  lemma FrontKeepsOrder(xs: seq<string>, news: seq<string>)
    requires xs != [] && InListOrder(xs[..|xs| - 1], news) && forall x :: x in news ==> x in xs[..|xs| - 1]
    ensures InListOrder(xs, news)
  {
    hide FirstAt;
    forall x | x in news
      ensures FirstAt(xs, x) == FirstAt(xs[..|xs| - 1], x)
    {
      FirstAtFront(xs, |xs| - 1, x);
    }
  }

  lemma {:induction false} FirstAtFront(xs: seq<string>, n: nat, x: string)
    requires n <= |xs| && x in xs[..n]
    ensures FirstAt(xs, x) == FirstAt(xs[..n], x)
  {
    if xs[0] != x {
      assert xs[1..][..n - 1] == xs[..n][1..];
      FirstAtFront(xs[1..], n - 1, x);
    }
  }

  /** In a consistent index a step up is a call or a use read backwards. */
  lemma UpIsDownReversed(g: Graph, x: string, y: string)
    requires Consistent(g)
    ensures y in Forward(Hood(g)(x), Up) <==> x in At(g.downstream, y) || x in At(g.uses, y)
    ensures y in Forward(Hood(g)(x), Up) <==> x in Forward(Hood(g)(y), Down)
  {
    hide At, Forward, Hood, BlastRadius;
    ForwardFollows(g, x, y, Up);
    ForwardFollows(g, y, x, Down);
  }

  /** The search relation is calls and uses, both ways. */
  lemma AdjacentIsCallOrUse(g: Graph, a: string, b: string)
    requires Consistent(g)
    ensures (a, b) in AdjacentPairs(g) <==>
            b in At(g.downstream, a) || a in At(g.downstream, b) || b in At(g.uses, a) || a in At(g.uses, b)
  {
    hide At;
    AdjacentIsPair(g, a, b);
  }

  // ---- The cones of the index ----

  /** The links of one direction out of symbols that are not blocked. */
  ghost function LinksOf(g: Graph, root: string, blocked: set<string>, dir: Direction): set<(string, string)> {
    set x, y | x in Nodes(g) && (x == root || x !in blocked)
               && y in (if dir == Up then At(g.upstream, x) + At(g.usedBy, x) else At(g.downstream, x) + At(g.uses, x))
      :: (x, y)
  }

  /** Everything a traversal can name. */
  ghost function Named(g: Graph, root: string): set<string> {
    {root} + Nodes(g) + set e | e in AdjacentPairs(g) :: e.1
  }

  lemma NamedCovers(g: Graph, root: string)
    ensures Covers(Hood(g), root, Named(g, root))
  {
    hide BlastRadius, AdjacentPairs, Forward, Nodes;
    forall x, dir, y | y in Forward(Hood(g)(x), dir)
      ensures y in Named(g, root)
    {
      ForwardFollows(g, x, y, dir);
      AdjacentIsPair(g, x, y);
      assert (x, y) in AdjacentPairs(g);
    }
    forall x
      ensures Hood(g)(x).symbolId == x
    {
      ListsOfIndex(g, x);
    }
  }

  lemma LinkIff(g: Graph, root: string, blocked: set<string>, dir: Direction, x: string, y: string)
    ensures (x, y) in LinksOf(g, root, blocked, dir) <==> (x == root || x !in blocked) && Follows(g, x, y, dir)
  {}

  lemma DirectedIff(g: Graph, root: string, blocked: set<string>, dir: Direction, x: string, y: string)
    ensures (x, y) in DirectedPairs(Hood(g), root, blocked, Named(g, root), dir) <==>
            (x == root || x !in blocked) && Follows(g, x, y, dir)
  {
    hide Hood, Forward, Named, Follows;
    ForwardFollows(g, x, y, dir);
    if Follows(g, x, y, dir) {
      LinkIsNamed(g, root, x, y, dir);
    }
  }

  lemma LinksAreDirected(g: Graph, root: string, blocked: set<string>, dir: Direction)
    ensures DirectedPairs(Hood(g), root, blocked, Named(g, root), dir) == LinksOf(g, root, blocked, dir)
  {
    hide Hood, LinksOf, DirectedPairs, Named, Follows;
    forall p
      ensures p in DirectedPairs(Hood(g), root, blocked, Named(g, root), dir) <==> p in LinksOf(g, root, blocked, dir)
    {
      assert p == (p.0, p.1);
      LinkIff(g, root, blocked, dir, p.0, p.1);
      DirectedIff(g, root, blocked, dir, p.0, p.1);
    }
  }

  lemma LinkIsNamed(g: Graph, root: string, x: string, y: string, dir: Direction)
    requires Follows(g, x, y, dir)
    ensures x in Named(g, root) && y in Named(g, root)
  {
    AdjacentIsPair(g, x, y);
  }

  /** No unblocked symbol but the root is reached in both directions in fewer than `depth` steps. */
  ghost predicate Apart(g: Graph, root: string, blocked: set<string>, depth: int) {
    forall x :: x != root && x !in blocked && Within(LinksOf(g, root, blocked, Up), {root}, x, depth - 1) ==>
      !Within(LinksOf(g, root, blocked, Down), {root}, x, depth - 1)
  }

  /** With the cones apart, a traversal of the index lists the unblocked symbols that the root reaches within `depth`
      steps, by who calls or uses whom only or by what each calls or uses only, each once with its neighbours. */
  lemma IndexTraversalIsCones(g: Graph, root: string, depth: nat, blocked: set<string>, r: seq<Neighborhood>)
    requires Apart(g, root, blocked, depth) && IsTraversal(Hood(g), root, depth, blocked, r)
    ensures forall i :: 0 <= i < |r| ==> r[i] == BlastRadius(g, r[i].symbolId)
    ensures forall i, j :: 0 <= i < j < |r| ==> r[i].symbolId != r[j].symbolId
    ensures forall x :: x in Emitted(r) <==>
              && (x == root || x !in blocked)
              && (Within(LinksOf(g, root, blocked, Up), {root}, x, depth)
                  || Within(LinksOf(g, root, blocked, Down), {root}, x, depth))
  {
    hide IsTraversal, Emitted, BlastRadius, LinksOf, DirectedPairs, Within, Named, Covers;
    NamedCovers(g, root);
    LinksAreDirected(g, root, blocked, Up);
    LinksAreDirected(g, root, blocked, Down);
    forall x, dir, k
      ensures InCone(Hood(g), root, blocked, Named(g, root), x, dir, k) <==>
              Within(LinksOf(g, root, blocked, dir), {root}, x, k)
    {
      assert dir == Up || dir == Down;
    }
    TraversalIsCones(Hood(g), root, depth, blocked, Named(g, root), r);
  }

  lemma {:induction false} NearIsWithin(g: Graph, root: string, x: string, k: nat)
    requires Near(Hood(g), root, x, k)
    ensures Within(AdjacentPairs(g), {root}, x, k)
    decreases k
  {
    hide AdjacentPairs, Hood, Forward;
    if k == 0 {
      assert IsWalk(AdjacentPairs(g), [root]);
    } else if Near(Hood(g), root, x, k - 1) {
      NearIsWithin(g, root, x, k - 1);
    } else {
      var y :| Near(Hood(g), root, y, k - 1) && (x in Forward(Hood(g)(y), Up) || x in Forward(Hood(g)(y), Down));
      NearIsWithin(g, root, y, k - 1);
      ForwardFollows(g, y, x, Up);
      ForwardFollows(g, y, x, Down);
      AdjacentIsPair(g, y, x);
      var w :| IsWalk(AdjacentPairs(g), w) && w[0] in {root} && w[|w| - 1] == y && |w| - 1 <= k - 1;
      assert IsWalk(AdjacentPairs(g), w + [x]);
    }
  }

  /** Whatever the index: a traversal lists no symbol twice, none that is blocked but the root, each with its own
      neighbours, and none more than `depth` calls or uses, read either way, from the root. */
  lemma IndexTraversalIsSound(g: Graph, root: string, depth: nat, blocked: set<string>, r: seq<Neighborhood>)
    requires IsTraversal(Hood(g), root, depth, blocked, r)
    ensures forall i, j :: 0 <= i < j < |r| ==> r[i].symbolId != r[j].symbolId
    ensures forall i :: 0 <= i < |r| ==>
              && r[i] == BlastRadius(g, r[i].symbolId) && (r[i].symbolId == root || r[i].symbolId !in blocked)
              && Within(AdjacentPairs(g), {root}, r[i].symbolId, depth)
  {
    hide IsTraversal, BlastRadius, AdjacentPairs, Within, Near;
    forall x
      ensures Hood(g)(x).symbolId == x
    {
      ListsOfIndex(g, x);
    }
    TraversalIsSound(Hood(g), root, depth, blocked, r);
    forall i | 0 <= i < |r|
      ensures Within(AdjacentPairs(g), {root}, r[i].symbolId, depth)
    {
      NearIsWithin(g, root, r[i].symbolId, depth);
    }
  }
}
