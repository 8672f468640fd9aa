/** The local variables of the explicit-stack search, and what ties them to the sets and maps of
    module TarjanInvariant through every step of the program. */
module SearchAgreement {
  import opened Walks
  import opened Ordering
  import opened TarjanInvariant

  type Graph<!T> = map<T, seq<T>>

  /** One entry of the work list: a symbol and how many of its successors its iterator has handed out. */
  datatype Frame<T> = Frame(node: T, pos: nat)

  /** The local variables of the search. */
  datatype Search<!T> = Search(counter: int, index: map<T, int>, lowlink: map<T, int>,
                               onStack: set<T>, stack: seq<T>, work: seq<Frame<T>>)

  /** The edges between symbols that have outgoing edges: all the search ever follows. */
  ghost function Inner<T(!new)>(g: Graph<T>): set<(T, T)> {
    set a, b | a in g && b in g[a] && b in g :: (a, b)
  }

  ghost predicate StackAgrees<T(!new)>(x: Search<T>, s: State<T>) {
    && x.counter == s.count && x.index == s.index && x.onStack == s.stacked <= s.index.Keys
    && (forall v :: v in x.stack <==> v in x.onStack)
    && (forall i, j :: 0 <= i < j < |x.stack| && x.stack[i] in x.index && x.stack[j] in x.index ==>
                         x.index[x.stack[i]] < x.index[x.stack[j]])
  }

  ghost predicate LowAgrees<T(!new)>(x: Search<T>, s: State<T>) {
    forall v :: v in x.onStack ==> v in x.lowlink && x.lowlink[v] == Low(s, v)
  }

  ghost predicate PendingEntry<T(!new)>(work: seq<Frame<T>>, index: map<T, int>) {
    |work| > 0 && work[|work| - 1].node !in index
  }

  /** The last work entry has not been numbered yet. */
  ghost predicate Pending<T(!new)>(x: Search<T>) {
    PendingEntry(x.work, x.index)
  }

  /** The work list holds the open symbols in the order of their numbers, and at most one that waits for its own. */
  ghost predicate IsWorkList<T(!new)>(g: Graph<T>, work: seq<Frame<T>>, index: map<T, int>, open: set<T>) {
    && (forall i :: 0 <= i < |work| ==> work[i].node in g && work[i].pos <= |g[work[i].node]|)
    && (forall i :: 0 <= i < |work| ==>
          work[i].node in open || (i == |work| - 1 && PendingEntry(work, index) && work[i].pos == 0))
    && (forall v :: v in open ==> exists i :: 0 <= i < |work| && work[i].node == v)
    && (forall i, j :: 0 <= i < j < |work| && work[i].node in index && work[j].node in index ==>
                         index[work[i].node] < index[work[j].node])
    && (|work| > 1 && PendingEntry(work, index) ==> (work[|work| - 2].node, work[|work| - 1].node) in Inner(g))
  }

  ghost predicate WorkAgrees<T(!new)>(g: Graph<T>, x: Search<T>, s: State<T>) {
    IsWorkList(g, x.work, x.index, s.open)
  }

  /** Every successor an iterator has handed out has been looked at, but for the pending one. */
  ghost predicate ScanAgrees<T(!new)>(g: Graph<T>, x: Search<T>, s: State<T>) {
    forall i, k :: 0 <= i < |x.work| && x.work[i].node in g && 0 <= k < x.work[i].pos <= |g[x.work[i].node]|
                   && g[x.work[i].node][k] in g ==>
      || (x.work[i].node, g[x.work[i].node][k]) in s.seen
      || (i == |x.work| - 2 && Pending(x) && x.work[|x.work| - 1].node == g[x.work[i].node][k])
  }

  ghost predicate Agrees<T(!new)>(g: Graph<T>, x: Search<T>, s: State<T>) {
    StackAgrees(x, s) && LowAgrees(x, s) && WorkAgrees(g, x, s) && ScanAgrees(g, x, s)
  }

  lemma IndexAgrees<T(!new)>(x: Search<T>, s: State<T>)
    requires StackAgrees(x, s)
    ensures x.index == s.index && x.onStack == s.stacked
  {}

  /** The last entry of the work list is its highest numbered one. */
  lemma LastIsTop<T(!new)>(g: Graph<T>, x: Search<T>, s: State<T>)
    requires StackAgrees(x, s) && WorkAgrees(g, x, s) && |x.work| > 0 && !Pending(x)
    ensures IsTop(s, x.work[|x.work| - 1].node)
  {
    var t := x.work[|x.work| - 1].node;
    forall a | a in s.open && a in s.index
      ensures s.index[a] <= s.index[t]
    {
      var i :| 0 <= i < |x.work| && x.work[i].node == a;
    }
  }

  /** Every open symbol reaches the pending one. */
  lemma OpenReachesPending<T(!new)>(g: Graph<T>, x: Search<T>, s: State<T>)
    requires Numbered(s) && StackAgrees(x, s) && WorkAgrees(g, x, s) && Joined(Inner(g), s) && Pending(x)
    ensures forall a :: a in s.open ==> Reach(Inner(g), a, x.work[|x.work| - 1].node)
  {
    var n := |x.work| - 1;
    forall a | a in s.open
      ensures Reach(Inner(g), a, x.work[n].node)
    {
      var i :| 0 <= i < |x.work| && x.work[i].node == a;
      var p := x.work[n - 1].node;
      assert p in s.open && s.index[a] <= s.index[p];
      assert Reach(Inner(g), a, p);
      ReachEdge(Inner(g), p, x.work[n].node);
      ReachTrans(Inner(g), a, p, x.work[n].node);
    }
  }

  // ---- Numbering a new symbol ----

  function Entered<T(==)>(x: Search<T>): Search<T>
    requires |x.work| > 0
  {
    var node := x.work[|x.work| - 1].node;
    x.(index := x.index[node := x.counter], lowlink := x.lowlink[node := x.counter], counter := x.counter + 1,
       stack := x.stack + [node], onStack := x.onStack + {node})
  }

  /** The new symbol is visited, and the edge that led to it counts as looked at. */
  ghost function EnteredState<T(!new)>(x: Search<T>, s: State<T>): State<T>
    requires |x.work| > 0
  {
    var n := |x.work| - 1;
    Visit(s, x.work[n].node).(
      seen := if n > 0 then s.seen + {(x.work[n - 1].node, x.work[n].node)} else s.seen)
  }

  lemma EnteredLow<T(!new)>(x: Search<T>, s: State<T>)
    requires Numbered(s) && Linked(s) && StackAgrees(x, s) && Pending(x)
    ensures Low(EnteredState(x, s), x.work[|x.work| - 1].node) == s.count
    ensures forall v :: v in s.stacked ==> Low(EnteredState(x, s), v) == Low(s, v) < s.count
  {
    var node := x.work[|x.work| - 1].node;
    forall v | v in s.stacked
      ensures Low(EnteredState(x, s), v) == Low(s, v) < s.count
    {
      VisitLow(s, node, v);
      assert Low(EnteredState(x, s), v) == Low(Visit(s, node), v);
    }
  }

  lemma EnteredInv<T(!new)>(g: Graph<T>, x: Search<T>, s: State<T>)
    requires StackAgrees(x, s) && WorkAgrees(g, x, s) && Inv(Inner(g), s) && Pending(x)
    ensures Inv(Inner(g), EnteredState(x, s))
  {
    hide Inner, Inv, Joined, Visit;
    var n := |x.work| - 1;
    PartsOfInv(Inner(g), s);
    OpenReachesPending(g, x, s);
    VisitKeeps(Inner(g), s, x.work[n].node);
    if n > 0 {
      ParentIsOpen(g, x, s);
      SeenByParent(g, x, s);
      SeeKeeps(Inner(g), Visit(s, x.work[n].node), x.work[n - 1].node, x.work[n].node);
    } else {
      FirstHasNoParent(x, s);
    }
  }

  lemma FirstHasNoParent<T(!new)>(x: Search<T>, s: State<T>)
    requires |x.work| == 1
    ensures EnteredState(x, s) == Visit(s, x.work[0].node)
  {}

  lemma PartsOfInv<T(!new)>(edges: set<(T, T)>, s: State<T>)
    requires Inv(edges, s)
    ensures Numbered(s) && Linked(s) && Joined(edges, s)
  {}

  lemma ParentIsOpen<T(!new)>(g: Graph<T>, x: Search<T>, s: State<T>)
    requires StackAgrees(x, s) && WorkAgrees(g, x, s) && Numbered(s) && Pending(x) && |x.work| > 1
    ensures
      var n := |x.work| - 1;
      && x.work[n - 1].node in s.open && x.work[n - 1].node in s.stacked
      && (x.work[n - 1].node, x.work[n].node) in Inner(g)
      && x.work[n - 1].node in Visit(s, x.work[n].node).open && x.work[n].node in Visit(s, x.work[n].node).index
  {
    hide Inner;
  }

  /** The edge that led to the new symbol does not lower any low link. */
  lemma SeenByParent<T(!new)>(g: Graph<T>, x: Search<T>, s: State<T>)
    requires StackAgrees(x, s) && Numbered(s) && Linked(s) && Pending(x)
    requires |x.work| > 1 && x.work[|x.work| - 2].node in s.stacked
    ensures See(Visit(s, x.work[|x.work| - 1].node), x.work[|x.work| - 2].node, x.work[|x.work| - 1].node)
         == EnteredState(x, s)
  {
    var n := |x.work| - 1;
    EnteredLow(x, s);
    assert Low(EnteredState(x, s), x.work[n - 1].node) == Low(Visit(s, x.work[n].node), x.work[n - 1].node);
  }

  lemma EnteredWorkList<T(!new)>(g: Graph<T>, work: seq<Frame<T>>, index: map<T, int>, open: set<T>, count: int)
    requires IsWorkList(g, work, index, open) && PendingEntry(work, index)
    requires open <= index.Keys && forall v :: v in index ==> index[v] < count
    ensures IsWorkList(g, work, index[work[|work| - 1].node := count], open + {work[|work| - 1].node})
  {
    hide Inner;
    var node := work[|work| - 1].node;
    forall v | v in open + {node}
      ensures exists i :: 0 <= i < |work| && work[i].node == v
    {
      assert v == node ==> work[|work| - 1].node == v;
    }
  }

  lemma EnteredWork<T(!new)>(g: Graph<T>, x: Search<T>, s: State<T>)
    requires StackAgrees(x, s) && Numbered(s) && WorkAgrees(g, x, s) && Pending(x)
    ensures WorkAgrees(g, Entered(x), EnteredState(x, s)) && !Pending(Entered(x))
  {
    hide IsWorkList, Inner;
    EnteredWorkList(g, x.work, x.index, s.open, x.counter);
    var y, t := Entered(x), EnteredState(x, s);
    assert y.index == x.index[x.work[|x.work| - 1].node := x.counter] && y.work == x.work;
    assert t.open == s.open + {x.work[|x.work| - 1].node};
    assert IsWorkList(g, y.work, y.index, t.open);
  }

  lemma EnteredScan<T(!new)>(g: Graph<T>, x: Search<T>, s: State<T>)
    requires WorkAgrees(g, x, s) && ScanAgrees(g, x, s) && Pending(x)
    ensures ScanAgrees(g, Entered(x), EnteredState(x, s))
  {}

  lemma EnteredAgrees<T(!new)>(g: Graph<T>, x: Search<T>, s: State<T>)
    requires Agrees(g, x, s) && Numbered(s) && Linked(s) && Pending(x)
    ensures Agrees(g, Entered(x), EnteredState(x, s)) && !Pending(Entered(x))
  {
    hide WorkAgrees, ScanAgrees, Linked, Low;
    EnteredLow(x, s);
    EnteredWork(g, x, s);
    EnteredScan(g, x, s);
    assert StackAgrees(Entered(x), EnteredState(x, s));
    assert LowAgrees(Entered(x), EnteredState(x, s));
  }

  // ---- Looking at one successor ----

  /** The iterator of the last work entry hands out its next successor. */
  function Advanced<T>(x: Search<T>): Search<T>
    requires |x.work| > 0
  {
    var n := |x.work| - 1;
    x.(work := x.work[n := x.work[n].(pos := x.work[n].pos + 1)])
  }

  /** The last work entry is numbered and its iterator has a successor left. */
  ghost predicate Scanning<T(!new)>(g: Graph<T>, x: Search<T>) {
    && |x.work| > 0 && !Pending(x)
    && x.work[|x.work| - 1].node in g && x.work[|x.work| - 1].pos < |g[x.work[|x.work| - 1].node]|
  }

  lemma AdvancedWork<T(!new)>(g: Graph<T>, x: Search<T>, s: State<T>)
    requires Scanning(g, x) && WorkAgrees(g, x, s)
    ensures WorkAgrees(g, Advanced(x), s) && !Pending(Advanced(x))
  {
    var y := Advanced(x);
    assert forall i :: 0 <= i < |y.work| ==> y.work[i].node == x.work[i].node;
  }

  lemma AdvancedScan<T(!new)>(g: Graph<T>, x: Search<T>, s: State<T>)
    requires Scanning(g, x) && ScanAgrees(g, x, s)
    requires
      var f := x.work[|x.work| - 1];
      g[f.node][f.pos] in g ==> (f.node, g[f.node][f.pos]) in s.seen
    ensures ScanAgrees(g, Advanced(x), s)
  {
    var y := Advanced(x);
    assert forall i :: 0 <= i < |y.work| ==> y.work[i].node == x.work[i].node;
    assert forall i :: 0 <= i < |y.work| - 1 ==> y.work[i] == x.work[i];
  }

  /** Moving past a successor that has no outgoing edges or has been looked at. */
  lemma AdvancedAgrees<T(!new)>(g: Graph<T>, x: Search<T>, s: State<T>)
    requires Agrees(g, x, s) && Scanning(g, x)
    requires
      var f := x.work[|x.work| - 1];
      g[f.node][f.pos] in g ==> (f.node, g[f.node][f.pos]) in s.seen
    ensures Agrees(g, Advanced(x), s) && !Pending(Advanced(x))
  {
    hide WorkAgrees, ScanAgrees, Low;
    AdvancedWork(g, x, s);
    AdvancedScan(g, x, s);
  }

  /** A successor that the search does not know yet is put on the work list. */
  function Pushed<T>(g: Graph<T>, x: Search<T>): Search<T>
    requires |x.work| > 0 && x.work[|x.work| - 1].node in g
    requires x.work[|x.work| - 1].pos < |g[x.work[|x.work| - 1].node]|
  {
    var f := x.work[|x.work| - 1];
    var y := Advanced(x);
    y.(work := y.work + [Frame(g[f.node][f.pos], 0)])
  }

  lemma PushedNodes<T(!new)>(g: Graph<T>, x: Search<T>)
    requires Scanning(g, x)
    ensures |Pushed(g, x).work| == |x.work| + 1
    ensures forall i :: 0 <= i < |x.work| ==> Pushed(g, x).work[i].node == x.work[i].node
    ensures forall i :: 0 <= i < |x.work| - 1 ==> Pushed(g, x).work[i] == x.work[i]
  {}

  lemma PushedWork<T(!new)>(g: Graph<T>, x: Search<T>, s: State<T>)
    requires Scanning(g, x) && WorkAgrees(g, x, s)
    requires
      var f := x.work[|x.work| - 1];
      g[f.node][f.pos] in g && g[f.node][f.pos] !in x.index
    ensures WorkAgrees(g, Pushed(g, x), s) && Pending(Pushed(g, x))
  {
    PushedNodes(g, x);
    var f := x.work[|x.work| - 1];
    var z := Pushed(g, x);
    assert (f.node, g[f.node][f.pos]) in Inner(g);
    forall v | v in s.open
      ensures exists i :: 0 <= i < |z.work| && z.work[i].node == v
    {
      var i :| 0 <= i < |x.work| && x.work[i].node == v;
      assert z.work[i].node == v;
    }
  }

  lemma PushedScan<T(!new)>(g: Graph<T>, x: Search<T>, s: State<T>)
    requires Scanning(g, x) && ScanAgrees(g, x, s)
    requires
      var f := x.work[|x.work| - 1];
      g[f.node][f.pos] in g && g[f.node][f.pos] !in x.index
    ensures ScanAgrees(g, Pushed(g, x), s)
  {
    PushedNodes(g, x);
  }

  lemma PushedAgrees<T(!new)>(g: Graph<T>, x: Search<T>, s: State<T>)
    requires Agrees(g, x, s) && Scanning(g, x)
    requires
      var f := x.work[|x.work| - 1];
      g[f.node][f.pos] in g && g[f.node][f.pos] !in x.index
    ensures Agrees(g, Pushed(g, x), s) && Pending(Pushed(g, x))
  {
    hide WorkAgrees, ScanAgrees, Low;
    PushedWork(g, x, s);
    PushedScan(g, x, s);
  }

  /** Writing the new low link of one symbol follows a step that changes only that one. */
  lemma LowWritten<T(!new)>(x: Search<T>, s: State<T>, t: State<T>, v: T, low: int)
    requires LowAgrees(x, s) && Low(t, v) == low
    requires forall w :: w in x.onStack && w != v ==> Low(t, w) == Low(s, w)
    ensures LowAgrees(x.(lowlink := x.lowlink[v := low]), t)
  {
    hide Low;
  }

  lemma StackFrame<T(!new)>(x: Search<T>, s: State<T>, y: Search<T>, t: State<T>)
    requires StackAgrees(x, s) && y == x.(lowlink := y.lowlink, work := y.work)
    requires t.count == s.count && t.index == s.index && t.stacked == s.stacked
    ensures StackAgrees(y, t)
  {}

  lemma WorkFrame<T(!new)>(g: Graph<T>, x: Search<T>, s: State<T>, y: Search<T>, t: State<T>)
    requires WorkAgrees(g, x, s) && y.work == x.work && y.index == x.index && t.open == s.open
    ensures WorkAgrees(g, y, t)
  {
    hide IsWorkList;
  }

  lemma ScanFrame<T(!new)>(g: Graph<T>, x: Search<T>, s: State<T>, y: Search<T>, t: State<T>)
    requires ScanAgrees(g, x, s) && y.work == x.work && y.index == x.index && s.seen <= t.seen
    ensures ScanAgrees(g, y, t)
  {}

  lemma LastIsOpen<T(!new)>(g: Graph<T>, x: Search<T>, s: State<T>)
    requires StackAgrees(x, s) && LowAgrees(x, s) && WorkAgrees(g, x, s) && Numbered(s)
    requires |x.work| > 0 && !Pending(x)
    ensures
      var t := x.work[|x.work| - 1].node;
      t in s.open && t in s.stacked && t in x.onStack && t in x.index && t in x.lowlink
      && x.lowlink[t] == Low(s, t)
  {
    hide Low, Inner;
  }

  /** The program's update of the low link for the successor `b` of `a`. */
  function Lowered<T(==)>(x: Search<T>, a: T, b: T): Search<T>
    requires a in x.lowlink && b in x.index
  {
    if b in x.onStack && x.index[b] < x.lowlink[a] then x.(lowlink := x.lowlink[a := x.index[b]]) else x
  }

  lemma LoweredLow<T(!new)>(x: Search<T>, s: State<T>, a: T, b: T)
    requires StackAgrees(x, s) && LowAgrees(x, s) && Numbered(s) && Linked(s)
    requires a in s.open && a in s.stacked && a in x.lowlink && x.lowlink[a] == Low(s, a) && b in x.index
    ensures LowAgrees(Lowered(x, a, b), See(s, a, b))
  {
    hide Low, Linked, Numbered, LowAgrees, See;
    SeeLow(s, a, b);
    LowWritten(x, s, See(s, a, b), a, Low(See(s, a, b), a));
    assert x.lowlink[a := x.lowlink[a]] == x.lowlink;
  }

  /** A numbered successor is looked at; if it is on the stack, its number may lower the low link. */
  lemma LoweredAgrees<T(!new)>(g: Graph<T>, x: Search<T>, s: State<T>, b: T)
    requires Agrees(g, x, s) && Numbered(s) && Linked(s) && |x.work| > 0 && !Pending(x) && b in x.index
    ensures
      var a := x.work[|x.work| - 1].node;
      a in s.open && a in x.lowlink && Agrees(g, Lowered(x, a, b), See(s, a, b))
  {
    var a := x.work[|x.work| - 1].node;
    hide Low, Linked, StackAgrees, WorkAgrees, ScanAgrees, LowAgrees, Numbered;
    LastIsOpen(g, x, s);
    LoweredLow(x, s, a, b);
    var y, t := Lowered(x, a, b), See(s, a, b);
    StackFrame(x, s, y, t);
    WorkFrame(g, x, s, y, t);
    ScanFrame(g, x, s, y, t);
  }

  // ---- Leaving an exhausted symbol ----

  ghost predicate Leaving<T(!new)>(g: Graph<T>, x: Search<T>) {
    && |x.work| > 0 && !Pending(x)
    && x.work[|x.work| - 1].node in g && x.work[|x.work| - 1].pos == |g[x.work[|x.work| - 1].node]|
  }

  function Popped<T>(x: Search<T>): Search<T>
    requires |x.work| > 0
  {
    x.(work := x.work[..|x.work| - 1])
  }

  lemma LeavingIsExhausted<T(!new)>(g: Graph<T>, x: Search<T>, s: State<T>)
    requires Leaving(g, x) && ScanAgrees(g, x, s)
    ensures Exhausted(Inner(g), s, x.work[|x.work| - 1].node)
  {
    var f := x.work[|x.work| - 1];
    forall b | (f.node, b) in Inner(g)
      ensures (f.node, b) in s.seen
    {
      var k :| 0 <= k < |g[f.node]| && g[f.node][k] == b;
    }
  }

  lemma PoppedOpen<T(!new)>(g: Graph<T>, x: Search<T>, s: State<T>)
    requires StackAgrees(x, s) && Numbered(s) && WorkAgrees(g, x, s) && |x.work| > 0 && !Pending(x)
    ensures forall i :: 0 <= i < |x.work| - 1 ==>
                          x.work[i].node in s.open && x.work[i].node != x.work[|x.work| - 1].node
                          && x.work[i].node in x.index
  {
    hide Inner;
  }

  lemma PoppedWorkList<T(!new)>(g: Graph<T>, rest: seq<Frame<T>>, last: Frame<T>, index: map<T, int>, open: set<T>)
    requires IsWorkList(g, rest + [last], index, open) && last.node in index
    requires forall i :: 0 <= i < |rest| ==> rest[i].node in open && rest[i].node != last.node && rest[i].node in index
    ensures IsWorkList(g, rest, index, open - {last.node}) && !PendingEntry(rest, index)
  {
    hide Inner;
    var work := rest + [last];
    assert forall i :: 0 <= i < |rest| ==> work[i] == rest[i];
    forall v | v in open && v != last.node
      ensures exists i :: 0 <= i < |rest| && rest[i].node == v
    {
      var i :| 0 <= i < |work| && work[i].node == v;
      assert rest[i].node == v;
    }
  }

  lemma PoppedWork<T(!new)>(g: Graph<T>, x: Search<T>, s: State<T>, t: State<T>)
    requires StackAgrees(x, s) && Numbered(s) && WorkAgrees(g, x, s) && |x.work| > 0 && !Pending(x)
    requires t.open == s.open - {x.work[|x.work| - 1].node}
    ensures WorkAgrees(g, Popped(x), t) && !Pending(Popped(x))
  {
    hide Numbered, StackAgrees, IsWorkList;
    PoppedOpen(g, x, s);
    var n := |x.work| - 1;
    assert x.work == x.work[..n] + [x.work[n]];
    PoppedWorkList(g, x.work[..n], x.work[n], x.index, s.open);
  }

  lemma PoppedScan<T(!new)>(g: Graph<T>, x: Search<T>, s: State<T>, t: State<T>)
    requires ScanAgrees(g, x, s) && |x.work| > 0 && !Pending(x) && t.seen == s.seen
    ensures ScanAgrees(g, Popped(x), t)
  {}

  /** The second last entry of the work list is the next lower open symbol. */
  lemma ParentIsNext<T(!new)>(g: Graph<T>, x: Search<T>, s: State<T>)
    requires StackAgrees(x, s) && Numbered(s) && WorkAgrees(g, x, s) && |x.work| > 1 && !Pending(x)
    requires Exhausted(Inner(g), s, x.work[|x.work| - 1].node)
    ensures CanRetire(Inner(g), s, x.work[|x.work| - 1].node, x.work[|x.work| - 2].node)
    ensures s.index[x.work[|x.work| - 2].node] < s.index[x.work[|x.work| - 1].node]
  {
    var n := |x.work| - 1;
    LastIsTop(g, x, s);
    assert x.work[n].node in s.open && x.work[n - 1].node in s.open;
    forall a | a in s.open && a != x.work[n].node
      ensures s.index[a] <= s.index[x.work[n - 1].node]
    {
      var i :| 0 <= i < |x.work| && x.work[i].node == a;
    }
  }

  /** With one work entry left the low link cannot be lower than the symbol itself: it is a root. */
  lemma LoneIsRoot<T(!new)>(g: Graph<T>, x: Search<T>, s: State<T>)
    requires Numbered(s) && Owned(s) && Linked(s) && StackAgrees(x, s) && WorkAgrees(g, x, s)
    requires |x.work| == 1 && !Pending(x)
    ensures Low(s, x.work[0].node) == s.index[x.work[0].node]
  {
    var t := x.work[0].node;
    assert t in s.link && s.link[t] in s.owner;
    var o := s.owner[s.link[t]];
    assert o in s.open;
    var i :| 0 <= i < |x.work| && x.work[i].node == o;
  }

  /** The stack from position `k` on, where the root is, is the stretch that closes. */
  lemma SuffixIsStretch<T(!new)>(x: Search<T>, s: State<T>, k: nat)
    requires StackAgrees(x, s) && k < |x.stack|
    requires forall v :: v in s.stacked && v in s.index ==>
                           (v in Stretch(s, x.stack[k]) <==> s.index[x.stack[k]] <= s.index[v])
    ensures Elements(x.stack[k..]) == Stretch(s, x.stack[k])
    ensures forall v :: v in x.stack[..k] <==> v in s.stacked - Stretch(s, x.stack[k])
  {
    hide Stretch;
    var stretch := Stretch(s, x.stack[k]);
    forall j | 0 <= j < |x.stack|
      ensures x.stack[j] in s.stacked && (x.stack[j] in stretch <==> k <= j)
    {
      assert x.stack[j] in x.onStack && x.stack[k] in x.onStack;
    }
    StretchIsStacked(s, x.stack[k]);
    SplitAt(x.stack, s.stacked, stretch, k);
  }

  lemma StretchIsStacked<T(!new)>(s: State<T>, t: T)
    ensures Stretch(s, t) <= s.stacked
  {}

  /** A list whose elements from position `k` on, and no others, lie in `part`. */
  lemma SplitAt<T(!new)>(xs: seq<T>, whole: set<T>, part: set<T>, k: nat)
    requires k <= |xs| && part <= whole && forall v :: v in xs <==> v in whole
    requires forall j :: 0 <= j < |xs| ==> (xs[j] in part <==> k <= j)
    ensures Elements(xs[k..]) == part
    ensures forall v :: v in xs[..k] <==> v in whole - part
  {
    assert xs == xs[..k] + xs[k..];
    forall v | v in xs[..k]
      ensures v in whole - part
    {
      var j :| 0 <= j < k && xs[j] == v;
    }
    forall v | v in xs[k..]
      ensures v in part
    {
      var j :| 0 <= j < |xs[k..]| && xs[k..][j] == v;
      assert xs[k + j] == v;
    }
    forall v | v in whole
      ensures v in xs[..k] || v in xs[k..]
    {
      assert v in xs[..k] + xs[k..];
    }
  }

  lemma ClosedStack<T(!new)>(x: Search<T>, s: State<T>, k: nat)
    requires StackAgrees(x, s) && k < |x.stack|
    requires forall v :: v in x.stack[..k] <==> v in s.stacked - Stretch(s, x.stack[k])
    ensures StackAgrees(x.(stack := x.stack[..k], onStack := x.onStack - Stretch(s, x.stack[k])), Close(s, x.stack[k]))
  {}

  /** After the pop, the parent's low link takes over the popped symbol's. */
  function Inherited<T(==)>(x: Search<T>): Search<T>
    requires |x.work| > 0
    requires |x.work| > 1 ==> x.work[|x.work| - 1].node in x.lowlink && x.work[|x.work| - 2].node in x.lowlink
  {
    var y := Popped(x);
    if |x.work| == 1 then y else
      var t, p := x.work[|x.work| - 1].node, x.work[|x.work| - 2].node;
      y.(lowlink := y.lowlink[p := if y.lowlink[t] < y.lowlink[p] then y.lowlink[t] else y.lowlink[p]])
  }

  lemma ParentHasLow<T(!new)>(g: Graph<T>, x: Search<T>, s: State<T>)
    requires Agrees(g, x, s) && Numbered(s) && |x.work| > 1 && !Pending(x)
    ensures
      var p := x.work[|x.work| - 2].node;
      p in s.open && p in s.stacked && p in x.onStack && p in x.lowlink && x.lowlink[p] == Low(s, p)
  {
    hide ScanAgrees, Low, Inner;
  }

  lemma RetiredLow<T(!new)>(edges: set<(T, T)>, x: Search<T>, s: State<T>, t: T, p: T)
    requires Numbered(s) && Linked(s) && x.onStack == s.stacked && LowAgrees(x, s) && CanRetire(edges, s, t, p)
    requires t in x.lowlink && x.lowlink[t] == Low(s, t) && p in x.lowlink && x.lowlink[p] == Low(s, p)
    ensures
      var low := if x.lowlink[t] < x.lowlink[p] then x.lowlink[t] else x.lowlink[p];
      LowAgrees(x.(lowlink := x.lowlink[p := low]), Retire(s, t, p))
  {
    hide Low, Retire, LowAgrees;
    RetireLow(edges, s, t, p);
    LowWritten(x, s, Retire(s, t, p), p, Low(Retire(s, t, p), p));
  }

  /** Leaving a symbol that is not a root. */
  lemma RetiredAgrees<T(!new)>(g: Graph<T>, x: Search<T>, s: State<T>)
    requires Agrees(g, x, s) && Inv(Inner(g), s) && Leaving(g, x) && |x.work| > 1
    ensures
      var t, p := x.work[|x.work| - 1].node, x.work[|x.work| - 2].node;
      && t in x.lowlink && p in x.lowlink && t in x.index && t in s.index
      && (x.lowlink[t] != x.index[t] ==>
            Agrees(g, Inherited(x), Retire(s, t, p)) && Inv(Inner(g), Retire(s, t, p)) && !Pending(Inherited(x)))
  {
    hide Low, Inner, StackAgrees, LowAgrees, WorkAgrees, ScanAgrees, Owned, OwnerIsLast, Joined, Explored, Linked,
      LinkComplete, Numbered, CanRetire, Pending;
    var t, p := x.work[|x.work| - 1].node, x.work[|x.work| - 2].node;
    LastIsOpen(g, x, s);
    ParentHasLow(g, x, s);
    IndexAgrees(x, s);
    LeavingIsExhausted(g, x, s);
    ParentIsNext(g, x, s);
    LowAtMostIndex(s, t);
    if x.lowlink[t] != x.index[t] {
      var y, r := Inherited(x), Retire(s, t, p);
      RetireKeeps(Inner(g), s, t, p);
      RetiredLow(Inner(g), x, s, t, p);
      LowFrame(x.(lowlink := y.lowlink), r, y);
      StackFrame(x, s, y, r);
      PoppedWork(g, x, s, r);
      PoppedScan(g, x, s, r);
      WorkFrame(g, Popped(x), r, y, r);
      ScanFrame(g, Popped(x), r, y, r);
      StillNumbered(x, y);
    }
  }

  lemma LowFrame<T(!new)>(x: Search<T>, s: State<T>, y: Search<T>)
    requires LowAgrees(x, s) && y.lowlink == x.lowlink && y.onStack == x.onStack
    ensures LowAgrees(y, s)
  {}

  lemma StillNumbered<T(!new)>(x: Search<T>, y: Search<T>)
    requires |x.work| > 0 && !Pending(Popped(x)) && y.work == Popped(x).work && y.index == x.index
    ensures !Pending(y)
  {}

  lemma LowAtMostIndex<T(!new)>(s: State<T>, t: T)
    requires Numbered(s) && Linked(s) && t in s.stacked
    ensures Low(s, t) <= s.index[t]
  {
    assert t in s.link;
  }

  /** A popped root leaves its parent's low link as it is. */
  lemma RootInheritsNothing<T(!new)>(g: Graph<T>, x: Search<T>, s: State<T>)
    requires Agrees(g, x, s) && Inv(Inner(g), s) && Leaving(g, x)
    ensures
      var t := x.work[|x.work| - 1].node;
      && t in x.lowlink && t in x.index && t in s.index && x.onStack == s.stacked && t in x.onStack
      && (|x.work| > 1 ==> x.work[|x.work| - 2].node in x.lowlink)
      && (|x.work| == 1 ==> x.lowlink[t] == x.index[t])
      && (x.lowlink[t] == x.index[t] ==> Inherited(x) == Popped(x) && CanClose(Inner(g), s, t))
  {
    hide Low, Inner, StackAgrees, LowAgrees, WorkAgrees, ScanAgrees, Owned, OwnerIsLast, Joined, Explored, Linked,
      LinkComplete, Numbered;
    var t := x.work[|x.work| - 1].node;
    LastIsOpen(g, x, s);
    IndexAgrees(x, s);
    LeavingIsExhausted(g, x, s);
    LastIsTop(g, x, s);
    if |x.work| == 1 {
      LoneIsRoot(g, x, s);
    } else {
      var p := x.work[|x.work| - 2].node;
      ParentHasLow(g, x, s);
      ParentIsNext(g, x, s);
      LowAtMostIndex(s, p);
      assert x.lowlink[p := x.lowlink[p]] == x.lowlink;
    }
  }

  /** Popping the stretch of a root off the stack closes it. */
  ghost function Closed<T(!new)>(x: Search<T>, s: State<T>, k: nat): Search<T>
    requires |x.work| > 0 && k < |x.stack|
  {
    Popped(x).(stack := x.stack[..k], onStack := x.onStack - Stretch(s, x.stack[k]))
  }

  lemma ClosedLow<T(!new)>(x: Search<T>, s: State<T>, y: Search<T>, t: T)
    requires LowAgrees(x, s) && y.lowlink == x.lowlink && y.onStack <= x.onStack
    ensures LowAgrees(y, Close(s, t))
  {
    assert forall v :: Low(Close(s, t), v) == Low(s, v);
  }

  lemma ClosedAgrees<T(!new)>(g: Graph<T>, x: Search<T>, s: State<T>, k: nat)
    requires Agrees(g, x, s) && Inv(Inner(g), s) && Leaving(g, x) && k < |x.stack|
    requires x.stack[k] == x.work[|x.work| - 1].node && CanClose(Inner(g), s, x.stack[k])
    ensures Agrees(g, Closed(x, s, k), Close(s, x.stack[k])) && !Pending(Closed(x, s, k))
    ensures Inv(Inner(g), Close(s, x.stack[k])) && Elements(x.stack[k..]) == Stretch(s, x.stack[k])
  {
    hide Low, Inner, StackAgrees, LowAgrees, WorkAgrees, ScanAgrees, Owned, OwnerIsLast, Joined, Explored, Linked,
      LinkComplete, Numbered, Stretch, Elements;
    var t := x.stack[k];
    var y, r := Closed(x, s, k), Close(s, t);
    CloseKeeps(Inner(g), s, t);
    StretchIsSuffix(s, t);
    SuffixIsStretch(x, s, k);
    ClosedStack(x, s, k);
    StackFrame(x.(stack := y.stack, onStack := y.onStack), r, y, r);
    ClosedLow(x, s, y, t);
    PoppedWork(g, x, s, r);
    PoppedScan(g, x, s, r);
    WorkFrame(g, Popped(x), r, y, r);
    ScanFrame(g, Popped(x), r, y, r);
  }
}
