/** `_sccs`: strongly connected components by an explicit work list, as get_crate_graph and find_cycles use it. */
module StronglyConnected {
  import opened Walks
  import opened Ordering
  import opened TarjanInvariant
  import opened SearchAgreement

  /** Symbols that neither have a number nor wait for one. */
  ghost function Todo<T(!new)>(g: Graph<T>, x: Search<T>): set<T> {
    set v | v in g && v !in x.index && !(Pending(x) && v == x.work[|x.work| - 1].node)
  }

  lemma LastFits<T(!new)>(g: Graph<T>, x: Search<T>, s: State<T>)
    requires Agrees(g, x, s) && |x.work| > 0
    ensures x.work[|x.work| - 1].node in g && x.work[|x.work| - 1].pos <= |g[x.work[|x.work| - 1].node]|
  {}

  /** Looking at a numbered successor keeps the invariant and the agreement. */
  lemma LookedAt<T(!new)>(g: Graph<T>, x: Search<T>, s: State<T>)
    requires Agrees(g, x, s) && Inv(Inner(g), s) && Scanning(g, x)
    requires
      var f := x.work[|x.work| - 1];
      g[f.node][f.pos] in g && g[f.node][f.pos] in x.index
    ensures
      var f := x.work[|x.work| - 1];
      var b := g[f.node][f.pos];
      && f.node in x.lowlink && Agrees(g, Lowered(x, f.node, b), See(s, f.node, b))
      && Inv(Inner(g), See(s, f.node, b)) && (f.node, b) in See(s, f.node, b).seen
  {
    hide StackAgrees, LowAgrees, WorkAgrees, ScanAgrees, Owned, OwnerIsLast, Joined, Explored, Linked, LinkComplete,
      Numbered, Inner, Low;
    var f := x.work[|x.work| - 1];
    IndexAgrees(x, s);
    LoweredAgrees(g, x, s, g[f.node][f.pos]);
    ListedIsInner(g, f.node, f.pos);
    SeeKeeps(Inner(g), s, f.node, g[f.node][f.pos]);
  }

  lemma ListedIsInner<T(!new)>(g: Graph<T>, a: T, k: nat)
    requires a in g && k < |g[a]| && g[a][k] in g
    ensures (a, g[a][k]) in Inner(g)
  {}

  method Enter<T(==, !new)>(g: Graph<T>, x: Search<T>, ghost s: State<T>) returns (y: Search<T>, ghost t: State<T>)
    requires Agrees(g, x, s) && Inv(Inner(g), s) && |x.work| > 0
    ensures Agrees(g, y, t) && Inv(Inner(g), t) && y.work == x.work && !Pending(y)
    ensures y == (if Pending(x) then Entered(x) else x) && t == (if Pending(x) then EnteredState(x, s) else s)
  {
    var node := x.work[|x.work| - 1].node;
    if node !in x.index {
      EnteredInv(g, x, s);
      EnteredAgrees(g, x, s);
      y, t := Entered(x), EnteredState(x, s);
    } else {
      y, t := x, s;
    }
  }

  /** Looks at the successors of the last work entry, up to the first one the search does not know. */
  method Scan<T(==, !new)>(g: Graph<T>, x: Search<T>, ghost s: State<T>)
      returns (y: Search<T>, ghost t: State<T>, advanced: bool)
    requires Agrees(g, x, s) && Inv(Inner(g), s) && |x.work| > 0 && !Pending(x)
    ensures Agrees(g, y, t) && Inv(Inner(g), t) && y.index == x.index && y.stack == x.stack
    ensures t.index == s.index && t.stacked == s.stacked
    ensures advanced ==> Pending(y) && Todo(g, y) < Todo(g, x)
    ensures !advanced ==> Leaving(g, y) && |y.work| == |x.work| && Todo(g, y) == Todo(g, x)
  {
    hide Inv, Agrees, Inner;
    LastFits(g, x, s);
    y, t, advanced := x, s, false;
    var n := |x.work| - 1;
    var node := x.work[n].node;
    while y.work[n].pos < |g[node]|
      invariant Agrees(g, y, t) && Inv(Inner(g), t) && |y.work| == n + 1 && !Pending(y) && y.work[n].node == node
      invariant y.work[n].pos <= |g[node]| && y.index == x.index && y.stack == x.stack
      invariant t.index == s.index && t.stacked == s.stacked
      decreases |g[node]| - y.work[n].pos
    {
      var succ := g[node][y.work[n].pos];
      if succ !in g {
        AdvancedAgrees(g, y, t);
        y := Advanced(y);
      } else if succ !in y.index {
        PushedAgrees(g, y, t);
        y := Pushed(g, y);
        advanced := true;
        assert succ in Todo(g, x) && succ !in Todo(g, y);
        return;
      } else {
        LookedAt(g, y, t);
        y, t := Lowered(y, node, succ), See(t, node, succ);
        AdvancedAgrees(g, y, t);
        y := Advanced(y);
      }
    }
  }

  /** `w = stack.pop()` until `w` is the root: the popped symbols, last pushed first. */
  method PopComponent<T(==)>(stack: seq<T>, onStack: set<T>, node: T, ghost k: nat)
      returns (rest: seq<T>, others: set<T>, component: seq<T>)
    requires k < |stack| && stack[k] == node
    requires forall i, j :: 0 <= i < j < |stack| ==> stack[i] != stack[j]
    ensures rest == stack[..k] && others == onStack - Elements(stack[k..])
    ensures Elements(component) == Elements(stack[k..]) && |component| == |stack| - k
  {
    rest, others, component := stack, onStack, [];
    while true
      invariant k < |rest| <= |stack| && rest == stack[..|rest|] && |component| == |stack| - |rest|
      invariant others == onStack - Elements(stack[|rest|..])
      invariant Elements(component) == Elements(stack[|rest|..])
      decreases |rest|
    {
      var w := rest[|rest| - 1];
      assert stack[|rest| - 1..] == [w] + stack[|rest|..];
      ElementsConcat([w], stack[|rest|..]);
      ElementsConcat(component, [w]);
      rest, others, component := rest[..|rest| - 1], others - {w}, component + [w];
      if w == node {
        break;
      }
    }
  }

  lemma StackIsDistinct<T(!new)>(x: Search<T>, s: State<T>)
    requires StackAgrees(x, s)
    ensures forall i, j :: 0 <= i < j < |x.stack| ==> x.stack[i] != x.stack[j]
    ensures forall v :: v in x.onStack ==> v in x.stack
  {
    assert forall i :: 0 <= i < |x.stack| ==> x.stack[i] in x.onStack;
  }

  lemma DistinctCount<T>(xs: seq<T>)
    requires forall i, j :: 0 <= i < j < |xs| ==> xs[i] != xs[j]
    ensures |Elements(xs)| == |xs|
  {
    if xs != [] {
      var n := |xs| - 1;
      DistinctCount(xs[..n]);
      assert Elements(xs) == Elements(xs[..n]) + {xs[n]};
    }
  }

  /** `closed` has just left the stack as a component, if it is not empty. */
  ghost predicate Closes<T(!new)>(edges: set<(T, T)>, s: State<T>, t: State<T>, closed: set<T>) {
    && t.index == s.index && t.stacked == s.stacked - closed && closed <= s.stacked
    && (closed != {} ==> IsComponent(edges, closed))
  }

  lemma StretchCloses<T(!new)>(edges: set<(T, T)>, s: State<T>, stack: seq<T>, k: nat, component: seq<T>)
    requires k < |stack| && Inv(edges, s) && CanClose(edges, s, stack[k])
    requires forall i, j :: 0 <= i < j < |stack| ==> stack[i] != stack[j]
    requires Elements(component) == Elements(stack[k..]) == Stretch(s, stack[k]) && |component| == |stack| - k
    ensures Closes(edges, s, Close(s, stack[k]), Elements(component)) && |component| == |Elements(component)|
  {
    hide Inv, CanClose, IsComponent, Elements;
    StretchIsComponent(edges, s, stack[k]);
    DistinctCount(stack[k..]);
  }

  lemma NothingCloses<T(!new)>(edges: set<(T, T)>, s: State<T>, t: T, p: T)
    ensures Closes(edges, s, Retire(s, t, p), Elements([])) && |Elements<T>([])| == 0
  {
    hide Low;
  }

  lemma SameTodo<T(!new)>(g: Graph<T>, x: Search<T>, y: Search<T>)
    requires y.index == x.index && !Pending(x) && !Pending(y)
    ensures Todo(g, y) == Todo(g, x)
  {}

  lemma LeavingIsNumbered<T(!new)>(g: Graph<T>, x: Search<T>)
    requires Leaving(g, x)
    ensures |x.work| > 0 && !Pending(x)
  {}

  /** Leaves an exhausted symbol; a root takes its component along. */
  method Leave<T(==, !new)>(g: Graph<T>, x: Search<T>, ghost s: State<T>)
      returns (y: Search<T>, ghost t: State<T>, component: seq<T>)
    requires Agrees(g, x, s) && Inv(Inner(g), s) && Leaving(g, x)
    ensures Agrees(g, y, t) && Inv(Inner(g), t) && !Pending(y) && |y.work| == |x.work| - 1
    ensures y.index == x.index && Closes(Inner(g), s, t, Elements(component))
    ensures |component| == |Elements(component)| && Todo(g, y) == Todo(g, x)
  {
    hide Inv, Agrees, Inner, CanClose, Closes, Todo, Stretch, Pending, Elements, Retire, Leaving;
    LeavingIsNumbered(g, x);
    RootInheritsNothing(g, x, s);
    var node := x.work[|x.work| - 1].node;
    y, component := Inherited(x), [];
    if x.lowlink[node] == x.index[node] {
      StackOfSearch(g, x, s);
      ghost var k :| 0 <= k < |x.stack| && x.stack[k] == node;
      ClosedAgrees(g, x, s, k);
      var rest, others;
      rest, others, component := PopComponent(y.stack, y.onStack, node, k);
      y := y.(stack := rest, onStack := others);
      t := Close(s, node);
      assert y == Closed(x, s, k);
      StretchCloses(Inner(g), s, x.stack, k, component);
      SameTodo(g, x, y);
    } else {
      RetiredAgrees(g, x, s);
      t := Retire(s, node, x.work[|x.work| - 2].node);
      NothingCloses(Inner(g), s, node, x.work[|x.work| - 2].node);
      SameTodo(g, x, y);
    }
  }

  lemma StackOfSearch<T(!new)>(g: Graph<T>, x: Search<T>, s: State<T>)
    requires Agrees(g, x, s)
    ensures forall i, j :: 0 <= i < j < |x.stack| ==> x.stack[i] != x.stack[j]
    ensures forall v :: v in x.onStack ==> v in x.stack
  {
    StackIsDistinct(x, s);
  }

  // ---- All components ----

  /** No component leads to one found later. */
  ghost predicate Upstream<T(!new)>(edges: set<(T, T)>, parts: seq<set<T>>) {
    forall i, j, a, b :: 0 <= i < j < |parts| && a in parts[i] && b in parts[j] ==> !Reach(edges, a, b)
  }

  /** The components found so far: disjoint, and together the visited symbols that have left the stack. */
  ghost predicate Parted<T(!new)>(edges: set<(T, T)>, parts: seq<set<T>>, s: State<T>) {
    && (forall i :: 0 <= i < |parts| ==> IsComponent(edges, parts[i]))
    && (forall i, j :: 0 <= i < j < |parts| ==> parts[i] !! parts[j])
    && (forall i, v :: 0 <= i < |parts| && v in parts[i] ==> v in s.index && v !in s.stacked)
    && (forall v :: v in s.index && v !in s.stacked ==> exists i :: 0 <= i < |parts| && v in parts[i])
    && Upstream(edges, parts)
  }

  /** What has left the stack leads to nothing that is still on it. */
  lemma FinishedIsClosed<T(!new)>(edges: set<(T, T)>, s: State<T>, a: T, b: T)
    requires Numbered(s) && Explored(edges, s) && a in s.index && a !in s.stacked && b in s.stacked
    ensures !Reach(edges, a, b)
  {
    if Reach(edges, a, b) {
      var done := set v | v in s.index && v !in s.stacked;
      ReachStaysInside(edges, done, a, b);
    }
  }

  lemma UpstreamGrows<T(!new)>(edges: set<(T, T)>, parts: seq<set<T>>, s: State<T>, closed: set<T>)
    requires Upstream(edges, parts) && Numbered(s) && Explored(edges, s) && closed <= s.stacked
    requires forall i, v :: 0 <= i < |parts| && v in parts[i] ==> v in s.index && v !in s.stacked
    ensures Upstream(edges, parts + [closed])
  {
    hide Reach, Explored, Numbered;
    var more := parts + [closed];
    forall i, j, a, b | 0 <= i < j < |more| && a in more[i] && b in more[j]
      ensures !Reach(edges, a, b)
    {
      if j == |parts| {
        FinishedIsClosed(edges, s, a, b);
      }
    }
  }

  lemma PartedGrows<T(!new)>(edges: set<(T, T)>, parts: seq<set<T>>, s: State<T>, t: State<T>, closed: set<T>)
    requires Parted(edges, parts, s) && Closes(edges, s, t, closed) && Inv(edges, s)
    ensures Parted(edges, if closed == {} then parts else parts + [closed], t)
  {
    hide IsComponent, Owned, OwnerIsLast, Joined, Explored, LinkSound, LinkComplete, Upstream;
    var more := if closed == {} then parts else parts + [closed];
    if closed != {} {
      UpstreamGrows(edges, parts, s, closed);
    }
    forall v | v in t.index && v !in t.stacked
      ensures exists i :: 0 <= i < |more| && v in more[i]
    {
      if v in s.stacked {
        assert v in more[|parts|];
      } else {
        var i :| 0 <= i < |parts| && v in parts[i];
        assert v in more[i];
      }
    }
  }

  lemma PartedSame<T(!new)>(edges: set<(T, T)>, parts: seq<set<T>>, s: State<T>, t: State<T>)
    requires Parted(edges, parts, s) && t.index == s.index && t.stacked == s.stacked
    ensures Parted(edges, parts, t)
  {}

  /** `max(min_size, 2)` */
  function Threshold(minSize: int): (least: nat)
    ensures least >= 2 && least >= minSize && (least == 2 || least == minSize)
  {
    if minSize < 2 then 2 else minSize
  }

  /** The components large enough to be listed, in the order found. */
  ghost function Large<T(!new)>(parts: seq<set<T>>, least: nat): seq<set<T>> {
    if parts == [] then [] else
      var c := parts[|parts| - 1];
      Large(parts[..|parts| - 1], least) + if |c| >= least then [c] else []
  }

  /** `sccs` lists `parts`, each in order. */
  ghost predicate Lists(sccs: seq<seq<string>>, parts: seq<set<string>>) {
    |sccs| == |parts| && forall k :: 0 <= k < |sccs| ==> sccs[k] == Sorted(parts[k])
  }

  /** The adjacency lists of an edge list, and its sources in order of first appearance. */
  method Adjacency(edges: seq<(string, string)>) returns (g: Graph<string>, sources: seq<string>)
    ensures forall a, b :: a in g && b in g[a] <==> (a, b) in edges
    ensures Elements(sources) == g.Keys && forall a :: a in g ==> g[a] != []
  {
    g, sources := map[], [];
    for i := 0 to |edges|
      invariant forall a, b :: a in g && b in g[a] <==> (a, b) in edges[..i]
      invariant Elements(sources) == g.Keys && forall a :: a in g ==> g[a] != []
    {
      var (src, dst) := edges[i];
      assert edges[..i + 1] == edges[..i] + [edges[i]];
      if src !in g {
        ElementsConcat(sources, [src]);
        sources := sources + [src];
        g := g[src := [dst]];
      } else {
        g := g[src := g[src] + [dst]];
      }
    }
    assert edges[..|edges|] == edges;
  }

  // ---- From the inner edges to all edges ----

  /** Symbols without outgoing edges never lie between two symbols on a walk that ends in a source. */
  lemma WalkStaysInner<T(!new)>(g: Graph<T>, edges: set<(T, T)>, w: seq<T>, a: T, b: T)
    requires forall x, y :: x in g && y in g[x] <==> (x, y) in edges
    requires Joins(edges, w, a, b) && b in g
    ensures Joins(Inner(g), w, a, b)
  {
    forall i | 0 <= i < |w| - 1
      ensures (w[i], w[i + 1]) in Inner(g)
    {
      assert (w[i], w[i + 1]) in edges;
      if i + 1 < |w| - 1 {
        assert (w[i + 1], w[i + 2]) in edges;
      }
    }
  }

  lemma InnerReach<T(!new)>(g: Graph<T>, edges: set<(T, T)>, a: T, b: T)
    requires forall x, y :: x in g && y in g[x] <==> (x, y) in edges
    ensures Reach(Inner(g), a, b) ==> Reach(edges, a, b)
    ensures b in g && Reach(edges, a, b) ==> Reach(Inner(g), a, b)
    ensures a != b && Reach(edges, a, b) ==> a in g
  {
    if Reach(Inner(g), a, b) {
      var w :| Joins(Inner(g), w, a, b);
      assert Joins(edges, w, a, b);
    }
    if Reach(edges, a, b) {
      var w :| Joins(edges, w, a, b);
      if a != b {
        assert (w[0], w[1]) in edges;
      }
      if b in g {
        WalkStaysInner(g, edges, w, a, b);
      }
    }
  }

  /** A component with two symbols is the same thing over the inner edges and over all edges. */
  lemma InnerComponent<T(!new)>(g: Graph<T>, edges: set<(T, T)>, c: set<T>)
    requires forall x, y :: x in g && y in g[x] <==> (x, y) in edges
    requires |c| >= 2
    ensures IsComponent(Inner(g), c) <==> IsComponent(edges, c)
    ensures IsComponent(edges, c) ==> c <= g.Keys
  {
    forall a, b {
      InnerReach(g, edges, a, b);
    }
    if IsComponent(Inner(g), c) || IsComponent(edges, c) {
      forall a | a in c
        ensures a in g
      {
        var b := AnotherMember(c, a);
        assert Reach(edges, a, b);
      }
    }
  }

  lemma {:induction false} SubsetCount<T>(c: set<T>, d: set<T>)
    requires c <= d
    ensures |c| <= |d|
  {
    if c != {} {
      var x :| x in c;
      SubsetCount(c - {x}, d - {x});
    }
  }

  lemma AnotherMember<T>(c: set<T>, a: T) returns (b: T)
    requires |c| >= 2
    ensures b in c && b != a
  {
    assert !(c <= {a}) by {
      if c <= {a} {
        SubsetCount(c, {a});
      }
    }
    b :| b in c && b != a;
  }

  /** Two components that share a symbol are the same. */
  lemma ComponentsCoincide<T(!new)>(edges: set<(T, T)>, c: set<T>, d: set<T>, v: T)
    requires IsComponent(edges, c) && IsComponent(edges, d) && v in c && v in d
    ensures c == d
  {
    forall a | a in c
      ensures a in d
    {
      assert Reach(edges, v, a) && Reach(edges, a, v);
    }
    forall a | a in d
      ensures a in c
    {
      assert Reach(edges, v, a) && Reach(edges, a, v);
    }
  }

  lemma {:induction false} LargeParts<T(!new)>(parts: seq<set<T>>, least: nat)
    requires forall i, j :: 0 <= i < j < |parts| ==> parts[i] !! parts[j]
    ensures forall k :: 0 <= k < |Large(parts, least)| ==>
              Large(parts, least)[k] in parts && |Large(parts, least)[k]| >= least
    ensures forall i :: 0 <= i < |parts| && |parts[i]| >= least ==> parts[i] in Large(parts, least)
    ensures forall j, k :: 0 <= j < k < |Large(parts, least)| ==> Large(parts, least)[j] !! Large(parts, least)[k]
  {
    if parts != [] {
      var n := |parts| - 1;
      LargeParts(parts[..n], least);
      var l, m := Large(parts, least), Large(parts[..n], least);
      assert forall k :: 0 <= k < |m| ==> l[k] == m[k] && m[k] in parts[..n];
      forall i | 0 <= i < |parts| && |parts[i]| >= least
        ensures parts[i] in l
      {
        if i < n {
          assert parts[..n][i] == parts[i];
          assert parts[i] in m;
        }
      }
    }
  }

  /** Leaving out the small ones keeps the order. */
  lemma {:induction false} LargeUpstream<T(!new)>(edges: set<(T, T)>, parts: seq<set<T>>, least: nat)
    requires Upstream(edges, parts)
    ensures Upstream(edges, Large(parts, least))
    ensures forall k :: 0 <= k < |Large(parts, least)| ==> Large(parts, least)[k] in parts
  {
    hide Reach;
    if parts != [] {
      var n := |parts| - 1;
      LargeUpstream(edges, parts[..n], least);
      var l, m := Large(parts, least), Large(parts[..n], least);
      forall i, j, a, b | 0 <= i < j < |l| && a in l[i] && b in l[j]
        ensures !Reach(edges, a, b)
      {
        assert m[i] in parts[..n] && l[i] == m[i];
        var k :| 0 <= k < n && parts[k] == l[i];
        assert j < |m| ==> l[j] == m[j];
      }
      assert forall k :: 0 <= k < |m| ==> m[k] in parts[..n] && m[k] in parts;
    }
  }

  // ---- The loops ----

  ghost predicate Progress(g: Graph<string>, x: Search<string>, s: State<string>, parts: seq<set<string>>,
                           sccs: seq<seq<string>>, minSize: int) {
    Agrees(g, x, s) && Inv(Inner(g), s) && Parted(Inner(g), parts, s) && Lists(sccs, Large(parts, Threshold(minSize)))
  }

  /** `work = [(root, iter(graph[root]))]` when the work list is empty. */
  lemma RootKeeps(g: Graph<string>, x: Search<string>, s: State<string>, parts: seq<set<string>>,
                  sccs: seq<seq<string>>, minSize: int, root: string)
    requires Progress(g, x, s, parts, sccs, minSize) && x.work == [] && root in g && root !in x.index
    ensures Progress(g, x.(work := [Frame(root, 0)]), s, parts, sccs, minSize)
  {
    hide Inv, Parted, Lists, Large, Inner, Low;
  }

  lemma EnterKeeps(g: Graph<string>, x: Search<string>, s: State<string>, parts: seq<set<string>>)
    requires Parted(Inner(g), parts, s) && |x.work| > 0 && StackAgrees(x, s)
    ensures Pending(x) ==> Parted(Inner(g), parts, EnteredState(x, s)) && Todo(g, Entered(x)) == Todo(g, x)
  {
    hide IsComponent, Inner;
    if Pending(x) {
      var t := EnteredState(x, s);
      assert forall v :: v in t.index && v !in t.stacked <==> v in s.index && v !in s.stacked;
    }
  }

  /** Appending a component that is large enough. */
  lemma ListGrows(sccs: seq<seq<string>>, parts: seq<set<string>>, least: nat, closed: set<string>)
    requires Lists(sccs, Large(parts, least)) && closed != {}
    ensures Lists(if |closed| >= least then sccs + [Sorted(closed)] else sccs, Large(parts + [closed], least))
  {
    assert (parts + [closed])[..|parts|] == parts;
  }

  /** One pass through the body of the work loop. */
  method Step(g: Graph<string>, x: Search<string>, ghost s: State<string>, ghost parts: seq<set<string>>,
              sccs: seq<seq<string>>, minSize: int)
      returns (y: Search<string>, ghost t: State<string>, ghost parts': seq<set<string>>, sccs': seq<seq<string>>)
    requires Progress(g, x, s, parts, sccs, minSize) && |x.work| > 0
    ensures Progress(g, y, t, parts', sccs', minSize)
    ensures x.index.Keys <= y.index.Keys && x.work[|x.work| - 1].node in y.index
    ensures Todo(g, y) < Todo(g, x) || (Todo(g, y) == Todo(g, x) && |y.work| < |x.work|)
  {
    hide Inv, Inner, IsComponent, Low, LowAgrees, WorkAgrees, ScanAgrees, Parted, Lists, Large, Leaving, Closes;
    EnterKeeps(g, x, s, parts);
    var advanced, component;
    y, t := Enter(g, x, s);
    ghost var before := t;
    y, t, advanced := Scan(g, y, t);
    PartedSame(Inner(g), parts, before, t);
    parts', sccs' := parts, sccs;
    if !advanced {
      ghost var prior := t;
      y, t, component := Leave(g, y, t);
      ghost var closed := Elements(component);
      PartedGrows(Inner(g), parts, prior, t, closed);
      if closed != {} {
        parts' := parts + [closed];
        ListGrows(sccs, parts, Threshold(minSize), closed);
      }
      if |component| >= Threshold(minSize) {
        sccs' := sccs + [Sorted(Elements(component))];
      }
    }
  }

  const NO_SEARCH: Search<string> := Search(0, map[], map[], {}, [], [])
  ghost const NO_STATE: State<string> := State(0, map[], {}, {}, map[], map[], {})

  lemma NothingVisited(edges: set<(string, string)>)
    ensures Inv(edges, NO_STATE) && Parted(edges, [], NO_STATE)
  {}

  lemma NothingYet(g: Graph<string>, minSize: int)
    ensures Progress(g, NO_SEARCH, NO_STATE, [], [], minSize)
  {
    hide Inv, Parted, Inner;
    NothingVisited(Inner(g));
  }

  /** When every source has been visited and the work list is empty, the parts are all there is. */
  lemma PartsAreAll(g: Graph<string>, edges: set<(string, string)>, x: Search<string>, s: State<string>,
                    parts: seq<set<string>>, c: set<string>)
    requires forall a, b :: a in g && b in g[a] <==> (a, b) in edges
    requires Agrees(g, x, s) && Inv(Inner(g), s) && Parted(Inner(g), parts, s)
    requires x.work == [] && g.Keys <= x.index.Keys
    requires IsComponent(edges, c) && |c| >= 2
    ensures c in parts
  {
    hide Joined, Explored, Linked, LinkComplete, OwnerIsLast, ScanAgrees, LowAgrees, Inner, IsComponent, Reach;
    InnerComponent(g, edges, c);
    var v := SomeMember(c);
    NothingStacked(g, x, s);
    assert v in g && v in s.index;
    var i :| 0 <= i < |parts| && v in parts[i];
    ComponentsCoincide(Inner(g), c, parts[i], v);
  }

  lemma SomeMember<T>(c: set<T>) returns (v: T)
    requires |c| >= 2
    ensures v in c
  {
    v :| v in c;
  }

  lemma OwnersAreOpen<T(!new)>(s: State<T>)
    requires Numbered(s) && Owned(s)
    ensures forall v :: v in s.stacked ==> exists a :: a in s.open
  {
    forall v | v in s.stacked
      ensures exists a :: a in s.open
    {
      assert v in s.owner && s.owner[v] in s.open;
    }
  }

  lemma NothingStacked(g: Graph<string>, x: Search<string>, s: State<string>)
    requires StackAgrees(x, s) && WorkAgrees(g, x, s) && Numbered(s) && Owned(s) && x.work == []
    ensures s.stacked == {} && s.index == x.index
  {
    hide Inner, Owned;
    OwnersAreOpen(s);
  }

  /** What is listed are the large parts, each a component of the whole graph. */
  lemma ListedAreComponents(g: Graph<string>, edges: set<(string, string)>, s: State<string>,
                            parts: seq<set<string>>, sccs: seq<seq<string>>, least: nat)
    requires forall a, b :: a in g && b in g[a] <==> (a, b) in edges
    requires Parted(Inner(g), parts, s) && Lists(sccs, Large(parts, least)) && least >= 2
    ensures forall k :: 0 <= k < |sccs| ==>
              && IsComponent(edges, Elements(sccs[k])) && |Elements(sccs[k])| >= least
              && sccs[k] == Sorted(Elements(sccs[k]))
    ensures forall j, k :: 0 <= j < k < |sccs| ==> Elements(sccs[j]) !! Elements(sccs[k])
    ensures forall j, k, a, b :: 0 <= j < k < |sccs| && a in sccs[j] && b in sccs[k] ==> !Reach(edges, a, b)
  {
    hide Large, IsComponent, Inner, Upstream;
    var large := Large(parts, least);
    LargeParts(parts, least);
    LargeUpstream(Inner(g), parts, least);
    forall k | 0 <= k < |sccs|
      ensures Elements(sccs[k]) == large[k] && IsComponent(edges, large[k])
    {
      InnerComponent(g, edges, large[k]);
    }
    forall j, k, a, b | 0 <= j < k < |sccs| && a in sccs[j] && b in sccs[k]
      ensures !Reach(edges, a, b)
    {
      assert a in Elements(sccs[j]) && b in Elements(sccs[k]) && a in large[j] && b in large[k];
      NotInnerReach(g, edges, large, j, k, a, b);
    }
  }

  lemma NotInnerReach<T(!new)>(g: Graph<T>, edges: set<(T, T)>, large: seq<set<T>>, j: nat, k: nat, a: T, b: T)
    requires forall x, y :: x in g && y in g[x] <==> (x, y) in edges
    requires Upstream(Inner(g), large) && j < k < |large| && a in large[j] && b in large[k]
    requires IsComponent(edges, large[k]) && |large[k]| >= 2
    ensures !Reach(edges, a, b)
  {
    hide Reach, IsComponent, Inner;
    InnerComponent(g, edges, large[k]);
    InnerReach(g, edges, a, b);
  }

  lemma LargeIsListed(parts: seq<set<string>>, sccs: seq<seq<string>>, least: nat, c: set<string>)
    requires Lists(sccs, Large(parts, least)) && c in parts && |c| >= least
    requires forall i, j :: 0 <= i < j < |parts| ==> parts[i] !! parts[j]
    ensures exists k :: 0 <= k < |sccs| && Elements(sccs[k]) == c
  {
    hide Large;
    LargeParts(parts, least);
    var k :| 0 <= k < |Large(parts, least)| && Large(parts, least)[k] == c;
    assert Elements(sccs[k]) == c;
  }

  lemma PartsOfProgress(g: Graph<string>, x: Search<string>, s: State<string>, parts: seq<set<string>>,
                        sccs: seq<seq<string>>, minSize: int)
    requires Progress(g, x, s, parts, sccs, minSize)
    ensures Agrees(g, x, s) && Inv(Inner(g), s) && Parted(Inner(g), parts, s)
    ensures Lists(sccs, Large(parts, Threshold(minSize)))
  {
    hide Agrees, Inv, Parted, Lists, Large, Inner;
  }

  lemma PartsAreDisjoint<T(!new)>(edges: set<(T, T)>, parts: seq<set<T>>, s: State<T>)
    requires Parted(edges, parts, s)
    ensures forall i, j :: 0 <= i < j < |parts| ==> parts[i] !! parts[j]
  {
    hide IsComponent;
  }

  lemma AllFound(g: Graph<string>, sources: seq<string>, edges: set<(string, string)>, x: Search<string>,
                 s: State<string>, parts: seq<set<string>>, sccs: seq<seq<string>>, minSize: int)
    requires forall a, b :: a in g && b in g[a] <==> (a, b) in edges
    requires Progress(g, x, s, parts, sccs, minSize) && x.work == []
    requires Elements(sources) == g.Keys && forall i :: 0 <= i < |sources| ==> sources[i] in x.index
    ensures forall k :: 0 <= k < |sccs| ==>
              && IsComponent(edges, Elements(sccs[k]))
              && |Elements(sccs[k])| >= Threshold(minSize)
              && sccs[k] == Sorted(Elements(sccs[k]))
    ensures forall c :: IsComponent(edges, c) && |c| >= Threshold(minSize) ==>
                          exists k :: 0 <= k < |sccs| && Elements(sccs[k]) == c
    ensures forall j, k :: 0 <= j < k < |sccs| ==> Elements(sccs[j]) !! Elements(sccs[k])
    ensures forall j, k, a, b :: 0 <= j < k < |sccs| && a in sccs[j] && b in sccs[k] ==> !Reach(edges, a, b)
  {
    hide Inv, Agrees, Large, IsComponent, Inner, Parted, Lists, Progress, Sorted, Reach;
    PartsOfProgress(g, x, s, parts, sccs, minSize);
    ListedAreComponents(g, edges, s, parts, sccs, Threshold(minSize));
    AllVisited(g, sources, x);
    PartsAreDisjoint(Inner(g), parts, s);
    forall c | IsComponent(edges, c) && |c| >= Threshold(minSize)
      ensures exists k :: 0 <= k < |sccs| && Elements(sccs[k]) == c
    {
      PartsAreAll(g, edges, x, s, parts, c);
      LargeIsListed(parts, sccs, Threshold(minSize), c);
    }
  }

  lemma AllVisited(g: Graph<string>, sources: seq<string>, x: Search<string>)
    requires Elements(sources) == g.Keys && forall i :: 0 <= i < |sources| ==> sources[i] in x.index
    ensures g.Keys <= x.index.Keys
  {}

  /** The strongly connected components with at least `max(min_size, 2)` symbols: every one of them, each
      listed once, with its symbols in order and behind those it leads to, and nothing else. Termination of the
      explicit-stack loop is part of the proof. */
  method Sccs(edges: seq<(string, string)>, minSize: int) returns (sccs: seq<seq<string>>)
    ensures forall k :: 0 <= k < |sccs| ==>
              && IsComponent(Elements(edges), Elements(sccs[k]))
              && |Elements(sccs[k])| >= Threshold(minSize)
              && sccs[k] == Sorted(Elements(sccs[k]))
    ensures forall c :: IsComponent(Elements(edges), c) && |c| >= Threshold(minSize) ==>
                          exists k :: 0 <= k < |sccs| && Elements(sccs[k]) == c
    ensures forall j, k :: 0 <= j < k < |sccs| ==> Elements(sccs[j]) !! Elements(sccs[k])
    ensures forall j, k, a, b :: 0 <= j < k < |sccs| && a in sccs[j] && b in sccs[k] ==>
              !Reach(Elements(edges), a, b)
  {
    hide Inv, Agrees, Parted, Lists, Large, IsComponent, Inner, Low, Todo, Reach;
    var g, sources := Adjacency(edges);
    var x := NO_SEARCH;
    ghost var s := NO_STATE;
    ghost var parts: seq<set<string>> := [];
    sccs := [];
    NothingYet(g, minSize);
    for r := 0 to |sources|
      invariant Progress(g, x, s, parts, sccs, minSize) && x.work == []
      invariant forall i :: 0 <= i < r ==> sources[i] in x.index
    {
      var root := sources[r];
      assert root in Elements(sources);
      if root in x.index {
        continue;
      }
      RootKeeps(g, x, s, parts, sccs, minSize, root);
      x := x.(work := [Frame(root, 0)]);
      while x.work != []
        invariant Progress(g, x, s, parts, sccs, minSize)
        invariant forall i :: 0 <= i < r ==> sources[i] in x.index
        invariant root in x.index || (|x.work| == 1 && x.work[0].node == root)
        decreases Todo(g, x), |x.work|
      {
        x, s, parts, sccs := Step(g, x, s, parts, sccs, minSize);
      }
    }
    AllFound(g, sources, Elements(edges), x, s, parts, sccs, minSize);
  }
}
