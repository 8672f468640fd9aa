/** The in-memory graph index: six dictionaries that upserts and removals change in place. */
module GraphIndex {
  import opened Ordering
  import opened GraphState
  import Traversal

  datatype Result<+T> = Ok(value: T) | ValueError(message: string)

  class InMemoryGraphIndex {
    var upstream: Links
    var downstream: Links
    var usedBy: Links
    var uses: Links
    var metadata: map<string, Metadata>
    var edgeSource: map<string, string>

    function State(): Graph
      reads this
    {
      Graph(upstream, downstream, usedBy, uses, metadata, edgeSource)
    }

    constructor ()
      ensures State() == EMPTY
    {
      upstream, downstream, usedBy, uses, metadata, edgeSource := map[], map[], map[], map[], map[], map[];
    }

    method Reset()
      modifies this
      ensures State() == EMPTY
    {
      upstream, downstream, usedBy, uses, metadata, edgeSource := map[], map[], map[], map[], map[], map[];
    }

    /** `for target in targets: d.setdefault(target, set()).add(value)` */
    static method AddToAll(m: Links, targets: seq<string>, value: string) returns (r: Links)
      ensures r == AddToEach(m, Elements(targets), value)
    {
      hide AddToEach, Elements, At;
      r := m;
      NothingAdded(m, value);
      for i := 0 to |targets|
        invariant r == AddToEach(m, Elements(targets[..i]), value)
      {
        assert targets[..i + 1] == targets[..i] + [targets[i]];
        ElementsConcat(targets[..i], [targets[i]]);
        OneElement(targets[i]);
        AddOne(m, Elements(targets[..i]), targets[i], value);
        r := r[targets[i] := At(r, targets[i]) + {value}];
      }
      assert targets[..|targets|] == targets;
    }

    static lemma NothingAdded(m: Links, value: string)
      ensures AddToEach(m, Elements([]), value) == m
    {}

    static lemma OneElement(x: string)
      ensures Elements([x]) == {x}
    {}

    /** The uses with modes: both directions, one target at a time. */
    static method AddUses(uses: Links, usedBy: Links, id: string, targets: seq<(string, seq<string>)>)
        returns (uses': Links, usedBy': Links)
      requires targets != []
      ensures uses' == Extend(uses, id, Targets(targets)) && usedBy' == AddToEach(usedBy, Targets(targets), id)
    {
      uses', usedBy' := uses, usedBy;
      assert AddToEach(usedBy, {}, id) == usedBy;
      for i := 0 to |targets|
        invariant uses' == if i == 0 then uses else Extend(uses, id, Targets(targets[..i]))
        invariant usedBy' == AddToEach(usedBy, Targets(targets[..i]), id)
      {
        var target := targets[i].0;
        TargetsGrow(targets, i);
        assert i == 0 ==> Targets(targets[..i]) == {};
        AddOne(usedBy, Targets(targets[..i]), target, id);
        ghost var before := Targets(targets[..i]);
        assert At(uses', id) + {target} == At(uses, id) + (before + {target});
        uses' := uses'[id := At(uses', id) + {target}];
        usedBy' := usedBy'[target := At(usedBy', target) + {id}];
      }
      assert targets[..|targets|] == targets;
    }

    static lemma AddOne(m: Links, keys: set<string>, key: string, value: string)
      ensures AddToEach(m, keys + {key}, value) ==
              AddToEach(m, keys, value)[key := At(AddToEach(m, keys, value), key) + {value}]
    {}

    method UpsertSymbol(u: Upsert)
      modifies this
      ensures State() == Upserted(old(State()), u)
    {
      hide Extend, AddToEach, Targets;
      downstream := Extend(downstream, u.id, Elements(u.calls));
      upstream := AddToAll(upstream, u.calls, u.id);
      upstream := Extend(upstream, u.id, Elements(u.calledBy));
      if u.usesWithModes != [] {
        uses, usedBy := AddUses(uses, usedBy, u.id, u.usesWithModes);
      } else {
        uses := Extend(uses, u.id, Elements(u.uses));
        usedBy := AddToAll(usedBy, u.uses, u.id);
      }
      usedBy := Extend(usedBy, u.id, Elements(u.usedBy));
      if u.metadata.Some? {
        metadata := metadata[u.id := u.metadata.value];
      }
      if u.edgeSource != "" {
        edgeSource := edgeSource[u.id := u.edgeSource];
      }
    }

    static lemma TargetsGrow(ts: seq<(string, seq<string>)>, i: nat)
      requires i < |ts|
      ensures Targets(ts[..i + 1]) == Targets(ts[..i]) + {ts[i].0}
    {
      assert forall j :: 0 <= j < i ==> ts[..i + 1][j] == ts[..i][j];
      assert ts[..i + 1][i] == ts[i];
    }

    /** One dictionary: the symbols' own rows are popped, then they are taken out of every other row. */
    static method Purge(m: Links, gone: set<string>) returns (r: Links)
      ensures r == Without(m, gone)
    {
      r := m - gone;
      var todo := r.Keys;
      while todo != {}
        invariant r.Keys == m.Keys - gone && todo <= r.Keys
        invariant forall k :: k in r ==> r[k] == if k in todo then m[k] else m[k] - gone
      {
        var k :| k in todo;
        r, todo := r[k := r[k] - gone], todo - {k};
      }
    }

    method RemoveSymbols(ids: seq<string>)
      modifies this
      ensures State() == Removed(old(State()), Elements(ids))
    {
      hide Without;
      if ids == [] {
        NothingRemoved(State());
        return;
      }
      var gone := Elements(ids);
      downstream := Purge(downstream, gone);
      uses := Purge(uses, gone);
      upstream := Purge(upstream, gone);
      usedBy := Purge(usedBy, gone);
      metadata, edgeSource := metadata - gone, edgeSource - gone;
    }

    static lemma NothingRemoved(g: Graph)
      ensures Elements<string>([]) == {} && Removed(g, {}) == g
    {
      NothingPurged(g.upstream);
      NothingPurged(g.downstream);
      NothingPurged(g.usedBy);
      NothingPurged(g.uses);
      hide Without;
      assert g.metadata - {} == g.metadata && g.edgeSource - {} == g.edgeSource;
    }

    static lemma NothingPurged(m: Links)
      ensures Without(m, {}) == m
    {
      assert forall k :: k in m ==> m[k] - {} == m[k];
    }

    ghost static predicate DegreesAdded(degrees: map<string, nat>, m: Links, r: map<string, nat>) {
      && r.Keys == degrees.Keys + m.Keys
      && forall k :: k in r ==> r[k] == (if k in degrees then degrees[k] else 0) + |At(m, k)|
    }

    /** `degrees[source] = degrees.get(source, 0) + len(targets)` over one dictionary */
    static method AddDegrees(degrees: map<string, nat>, m: Links) returns (r: map<string, nat>)
      ensures DegreesAdded(degrees, m, r)
    {
      r := degrees;
      var todo := m.Keys;
      while todo != {}
        invariant todo <= m.Keys && r.Keys == degrees.Keys + (m.Keys - todo)
        invariant forall k :: k in r ==>
                    r[k] == (if k in degrees then degrees[k] else 0) + (if k in todo then 0 else |At(m, k)|)
      {
        var k :| k in todo;
        r, todo := r[k := (if k in r then r[k] else 0) + |m[k]|], todo - {k};
      }
    }

    /** The degree of every node. */
    method GetSymbolDegrees() returns (degrees: map<string, nat>)
      ensures degrees == Degrees(State())
    {
      hide DegreesAdded, Degrees;
      var d1 := AddDegrees(map[], downstream);
      var d2 := AddDegrees(d1, uses);
      var d3 := AddDegrees(d2, upstream);
      degrees := AddDegrees(d3, usedBy);
      AllAdded(State(), d1, d2, d3, degrees);
    }

    static lemma AllAdded(g: Graph, d1: map<string, nat>, d2: map<string, nat>, d3: map<string, nat>,
                          d4: map<string, nat>)
      requires DegreesAdded(map[], g.downstream, d1) && DegreesAdded(d1, g.uses, d2)
      requires DegreesAdded(d2, g.upstream, d3) && DegreesAdded(d3, g.usedBy, d4)
      ensures d4 == Degrees(g)
    {
      hide DegreesAdded, Degrees;
      AllKeysAdded(g, d1, d2, d3, d4);
      forall k | k in d4
        ensures k in Degrees(g) && d4[k] == Degrees(g)[k]
      {
        DegreeOf(g, k, d1, d2, d3, d4);
        DegreeAt(g, k);
      }
      DegreeKeys(g);
    }

    static lemma AllKeysAdded(g: Graph, d1: map<string, nat>, d2: map<string, nat>, d3: map<string, nat>,
                              d4: map<string, nat>)
      requires DegreesAdded(map[], g.downstream, d1) && DegreesAdded(d1, g.uses, d2)
      requires DegreesAdded(d2, g.upstream, d3) && DegreesAdded(d3, g.usedBy, d4)
      ensures d4.Keys == Nodes(g)
    {
      hide DegreesAdded;
      KeysAdded(map[], g.downstream, d1);
      KeysAdded(d1, g.uses, d2);
      KeysAdded(d2, g.upstream, d3);
      KeysAdded(d3, g.usedBy, d4);
    }

    static lemma DegreeAt(g: Graph, k: string)
      requires k in Nodes(g)
      ensures k in Degrees(g)
      ensures Degrees(g)[k] == |At(g.downstream, k)| + |At(g.uses, k)| + |At(g.upstream, k)| + |At(g.usedBy, k)|
    {}

    static lemma DegreeKeys(g: Graph)
      ensures Degrees(g).Keys == Nodes(g)
    {}

    static lemma KeysAdded(degrees: map<string, nat>, m: Links, r: map<string, nat>)
      requires DegreesAdded(degrees, m, r)
      ensures r.Keys == degrees.Keys + m.Keys
    {}

    static lemma DegreeOf(g: Graph, k: string, d1: map<string, nat>, d2: map<string, nat>, d3: map<string, nat>,
                          d4: map<string, nat>)
      requires DegreesAdded(map[], g.downstream, d1) && DegreesAdded(d1, g.uses, d2)
      requires DegreesAdded(d2, g.upstream, d3) && DegreesAdded(d3, g.usedBy, d4) && k in d4
      ensures d4[k] == |At(g.downstream, k)| + |At(g.uses, k)| + |At(g.upstream, k)| + |At(g.usedBy, k)|
    {}

    /** `sum(len(targets) for targets in d.values())` */
    static method SumOfSizes(m: Links) returns (n: nat)
      ensures n == Total(Sizes(m))
    {
      n := 0;
      var left := m;
      while left != map[]
        invariant n + Total(Sizes(left)) == Total(Sizes(m))
        decreases left.Keys
      {
        var k :| k in left;
        TotalSplit(Sizes(left), k);
        assert Sizes(left) - {k} == Sizes(left - {k});
        n, left := n + |left[k]|, left - {k};
      }
      assert Sizes(map[]) == map[];
    }

    /** Nodes, edges, nodes with metadata and bare targets. The bare targets are exactly the nodes without
        metadata, and the edges the distinct call and use pairs. */
    method GetStats() returns (nodes: nat, edges: nat, symbols: nat, bare: int)
      ensures nodes == |Nodes(State())| && symbols == |metadata|
      ensures edges == |Pairs(downstream)| + |Pairs(uses)|
      ensures metadata.Keys <= Nodes(State()) ==> bare == |Nodes(State()) - metadata.Keys|
    {
      hide Total, Sizes, Pairs;
      var nodeIds := upstream.Keys + downstream.Keys + usedBy.Keys + uses.Keys;
      var calls := SumOfSizes(downstream);
      var used := SumOfSizes(uses);
      EdgeCountIsPairs(State());
      nodes, edges, symbols := |nodeIds|, calls + used, |metadata|;
      bare := nodes - symbols;
      DifferenceCount(nodeIds, metadata.Keys);
    }

    static lemma DifferenceCount(a: set<string>, b: set<string>)
      ensures b <= a ==> |a - b| == |a| - |b|
    {
      if b <= a {
        assert a == b + (a - b);
      }
    }

    /** The direction-locked traversal over the index as it stands. */
    method Traverse(symbolId: string, depth: int, exclude: set<string>) returns (r: Result<seq<Neighborhood>>)
      ensures r.ValueError? <==> depth < 1
      ensures r.Ok? ==> Traversal.IsTraversal(Hood(State()), symbolId, depth, exclude, r.value)
    {
      hide Traversal.IsTraversal, Traversal.Covers;
      if depth < 1 {
        return ValueError("Depth must be at least 1.");
      }
      EverythingCovers(State(), symbolId);
      var listed := Traversal.TraverseAll(Hood(State()), symbolId, depth, exclude, Everything(State(), symbolId));
      r := Ok(listed);
    }
  }

  /** All symbols a traversal of the index can meet. */
  ghost function Everything(g: Graph, root: string): set<string> {
    {root} + set e | e in AdjacentPairs(g) :: e.1
  }

  lemma EverythingCovers(g: Graph, root: string)
    ensures Traversal.Covers(Hood(g), root, Everything(g, root))
  {
    hide BlastRadius, AdjacentPairs, Adjacent;
    forall x, dir, y | y in Traversal.Forward(Hood(g)(x), dir)
      ensures y in Everything(g, root)
    {
      ListedIsAdjacent(g, x, y);
      AdjacentIsPair(g, x, y);
      assert (x, y) in AdjacentPairs(g);
    }
    forall x
      ensures Hood(g)(x).symbolId == x
    {
      OwnId(g, x);
    }
  }

  lemma OwnId(g: Graph, x: string)
    ensures BlastRadius(g, x).symbolId == x
  {}
}
