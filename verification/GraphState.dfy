/** The contents of the in-memory graph index as a value, the meaning of its updates, and what they keep. */
module GraphState {
  import opened Options
  import opened Ordering

  type Links = map<string, set<string>>

  datatype Metadata = Metadata(kind: string, filePath: string, startLine: int, endLine: int, isTest: bool)

  datatype Graph = Graph(upstream: Links, downstream: Links, usedBy: Links, uses: Links,
                         metadata: map<string, Metadata>, edgeSource: map<string, string>)

  const EMPTY: Graph := Graph(map[], map[], map[], map[], map[], map[])

  /** `d.get(key, set())` */
  function At(m: Links, key: string): set<string> {
    if key in m then m[key] else {}
  }

  /** `d.setdefault(key, set()).update(values)` */
  function Extend(m: Links, key: string, values: set<string>): Links {
    m[key := At(m, key) + values]
  }

  /** `d.setdefault(key, set()).add(value)` for every key in `keys` */
  function AddToEach(m: Links, keys: set<string>, value: string): Links {
    map k | k in m.Keys + keys :: if k in keys then At(m, k) + {value} else m[k]
  }

  /** The arguments of one upsert. */
  datatype Upsert = Upsert(id: string, calls: seq<string>, calledBy: seq<string>, uses: seq<string>,
                           usedBy: seq<string>, usesWithModes: seq<(string, seq<string>)>,
                           metadata: Option<Metadata>, edgeSource: string)

  function Targets(usesWithModes: seq<(string, seq<string>)>): set<string> {
    set i | 0 <= i < |usesWithModes| :: usesWithModes[i].0
  }

  /** Uses with modes take the place of plain uses when there are any. */
  function Used(u: Upsert): set<string> {
    if u.usesWithModes != [] then Targets(u.usesWithModes) else Elements(u.uses)
  }

  function Upserted(g: Graph, u: Upsert): Graph {
    Graph(Extend(AddToEach(g.upstream, Elements(u.calls), u.id), u.id, Elements(u.calledBy)),
          Extend(g.downstream, u.id, Elements(u.calls)),
          Extend(AddToEach(g.usedBy, Used(u), u.id), u.id, Elements(u.usedBy)),
          Extend(g.uses, u.id, Used(u)),
          if u.metadata.Some? then g.metadata[u.id := u.metadata.value] else g.metadata,
          if u.edgeSource != "" then g.edgeSource[u.id := u.edgeSource] else g.edgeSource)
  }

  function Without(m: Links, gone: set<string>): Links {
    map k | k in m && k !in gone :: m[k] - gone
  }

  function Removed(g: Graph, gone: set<string>): Graph {
    Graph(Without(g.upstream, gone), Without(g.downstream, gone), Without(g.usedBy, gone), Without(g.uses, gone),
          g.metadata - gone, g.edgeSource - gone)
  }

  function Nodes(g: Graph): set<string> {
    g.upstream.Keys + g.downstream.Keys + g.usedBy.Keys + g.uses.Keys
  }

  // ---- Neighbourhoods ----

  datatype Neighborhood = Neighborhood(symbolId: string, upstream: seq<string>, downstream: seq<string>,
                                       usedBy: seq<string>, uses: seq<string>)

  /** `get_blast_radius`: the direct neighbours, each list sorted. */
  function BlastRadius(g: Graph, id: string): Neighborhood {
    Neighborhood(id, Sorted(At(g.upstream, id)), Sorted(At(g.downstream, id)),
                 Sorted(At(g.usedBy, id)), Sorted(At(g.uses, id)))
  }

  /** The lookup of neighbourhoods in one state of the index. */
  function Hood(g: Graph): string -> Neighborhood {
    id => BlastRadius(g, id)
  }

  function AllOf(n: Neighborhood): seq<string> {
    n.upstream + n.downstream + n.usedBy + n.uses
  }

  /** `b` is in one of the four neighbour relations of `a`. */
  predicate Adjacent(g: Graph, a: string, b: string) {
    b in At(g.upstream, a) || b in At(g.downstream, a) || b in At(g.usedBy, a) || b in At(g.uses, a)
  }

  /** The union of the four neighbour relations. */
  ghost function AdjacentPairs(g: Graph): set<(string, string)> {
    set a, b | a in Nodes(g) && b in At(g.upstream, a) + At(g.downstream, a) + At(g.usedBy, a) + At(g.uses, a) :: (a, b)
  }

  lemma AdjacentIsPair(g: Graph, a: string, b: string)
    ensures (a, b) in AdjacentPairs(g) <==> Adjacent(g, a, b)
  {}

  lemma ListedIsAdjacent(g: Graph, a: string, b: string)
    ensures b in AllOf(BlastRadius(g, a)) <==> Adjacent(g, a, b)
  {
    var n := BlastRadius(g, a);
    assert b in Elements(n.upstream) <==> b in At(g.upstream, a);
    assert b in Elements(n.downstream) <==> b in At(g.downstream, a);
    assert b in Elements(n.usedBy) <==> b in At(g.usedBy, a);
    assert b in Elements(n.uses) <==> b in At(g.uses, a);
  }

  // ---- Forward and reverse maps mirror each other ----

  ghost predicate Mirror(forward: Links, reverse: Links) {
    forall a, b :: b in At(forward, a) <==> a in At(reverse, b)
  }

  ghost predicate Consistent(g: Graph) {
    Mirror(g.downstream, g.upstream) && Mirror(g.uses, g.usedBy) && g.metadata.Keys <= Nodes(g)
  }

  lemma AtUpserted(forward: Links, reverse: Links, id: string, targets: set<string>, sources: set<string>, k: string)
    ensures At(Extend(forward, id, targets), k) == if k == id then At(forward, k) + targets else At(forward, k)
    ensures At(Extend(AddToEach(reverse, targets, id), id, sources), k) ==
            At(reverse, k) + (if k in targets then {id} else {}) + (if k == id then sources else {})
  {}

  /** An upsert keeps one pair of maps mirrored exactly if its reverse arguments name only symbols that
      already point forward to the upserted one. */
  lemma MirrorUpserted(forward: Links, reverse: Links, id: string, targets: set<string>, sources: set<string>)
    requires Mirror(forward, reverse)
    ensures Mirror(Extend(forward, id, targets), Extend(AddToEach(reverse, targets, id), id, sources))
            <==> forall s :: s in sources ==> id in At(Extend(forward, id, targets), s)
  {
    var f, r := Extend(forward, id, targets), Extend(AddToEach(reverse, targets, id), id, sources);
    forall k {
      AtUpserted(forward, reverse, id, targets, sources, k);
    }
    hide Extend, AddToEach;
    if forall s :: s in sources ==> id in At(f, s) {
      assert Mirror(f, r);
    } else {
      var s :| s in sources && id !in At(f, s);
      assert s in At(r, id);
    }
  }

  lemma UpsertConsistent(g: Graph, u: Upsert)
    requires Consistent(g)
    ensures Consistent(Upserted(g, u)) <==>
            && (forall s :: s in u.calledBy ==> u.id in At(Upserted(g, u).downstream, s))
            && (forall s :: s in u.usedBy ==> u.id in At(Upserted(g, u).uses, s))
  {
    MirrorUpserted(g.downstream, g.upstream, u.id, Elements(u.calls), Elements(u.calledBy));
    MirrorUpserted(g.uses, g.usedBy, u.id, Used(u), Elements(u.usedBy));
  }

  /** Saying only who calls the symbol is such an argument. */
  lemma CalledByBreaksMirror(u: Upsert)
    requires u == Upsert("b", [], ["a"], [], [], [], None, "regex")
    ensures Consistent(EMPTY) && !Consistent(Upserted(EMPTY, u))
  {
    UpsertConsistent(EMPTY, u);
    assert "a" in u.calledBy && "b" !in At(Upserted(EMPTY, u).downstream, "a");
  }

  /** A removed symbol is nowhere: not a node, not an endpoint, without metadata. */
  lemma RemoveForgets(g: Graph, gone: set<string>, v: string)
    requires v in gone
    ensures v !in Nodes(Removed(g, gone)) && v !in Removed(g, gone).metadata && v !in Removed(g, gone).edgeSource
    ensures forall a :: v !in At(Removed(g, gone).downstream, a) && v !in At(Removed(g, gone).uses, a)
                        && v !in At(Removed(g, gone).upstream, a) && v !in At(Removed(g, gone).usedBy, a)
  {}

  lemma AtWithout(m: Links, gone: set<string>, k: string)
    ensures At(Without(m, gone), k) == if k in gone then {} else At(m, k) - gone
  {}

  lemma MirrorWithout(forward: Links, reverse: Links, gone: set<string>)
    requires Mirror(forward, reverse)
    ensures Mirror(Without(forward, gone), Without(reverse, gone))
    ensures forall a, b :: b in At(Without(forward, gone), a) <==> b in At(forward, a) && a !in gone && b !in gone
  {
    forall k
      ensures At(Without(forward, gone), k) == if k in gone then {} else At(forward, k) - gone
      ensures At(Without(reverse, gone), k) == if k in gone then {} else At(reverse, k) - gone
    {
      AtWithout(forward, gone, k);
      AtWithout(reverse, gone, k);
    }
    hide Without, At;
  }

  /** Removal keeps the index consistent and takes away exactly the edges that touch a removed symbol. */
  lemma RemoveConsistent(g: Graph, gone: set<string>)
    requires Consistent(g)
    ensures Consistent(Removed(g, gone))
    ensures forall a, b :: b in At(Removed(g, gone).downstream, a) <==>
                             b in At(g.downstream, a) && a !in gone && b !in gone
    ensures forall a, b :: b in At(Removed(g, gone).uses, a) <==> b in At(g.uses, a) && a !in gone && b !in gone
  {
    MirrorWithout(g.downstream, g.upstream, gone);
    MirrorWithout(g.uses, g.usedBy, gone);
  }

  /** Both ends of every edge are nodes. */
  lemma EndpointsAreNodes(g: Graph, a: string, b: string)
    requires Consistent(g) && (b in At(g.downstream, a) || b in At(g.uses, a))
    ensures a in Nodes(g) && b in Nodes(g)
  {
    assert b in At(g.downstream, a) ==> a in At(g.upstream, b);
    assert b in At(g.uses, a) ==> a in At(g.usedBy, b);
  }

  // ---- Counting ----

  ghost function Total(f: map<string, nat>): nat {
    if f == map[] then 0 else
      var k :| k in f;
      f[k] + Total(f - {k})
  }

  lemma {:induction false} TotalSplit(f: map<string, nat>, k: string)
    requires k in f
    ensures Total(f) == f[k] + Total(f - {k})
  {
    var j :| j in f && Total(f) == f[j] + Total(f - {j});
    if j != k {
      TotalSplit(f - {j}, k);
      TotalSplit(f - {k}, j);
      assert f - {j} - {k} == f - {k} - {j};
    }
  }

  function Sizes(m: Links): map<string, nat> {
    map k | k in m :: |m[k]|
  }

  /** All pairs that a map of links holds. */
  ghost function Pairs(m: Links): set<(string, string)> {
    set a, b | a in m && b in m[a] :: (a, b)
  }

  lemma {:induction false} RowCount(a: string, row: set<string>)
    ensures |set b | b in row :: (a, b)| == |row|
  {
    var pairs := set b | b in row :: (a, b);
    if row != {} {
      var b :| b in row;
      RowCount(a, row - {b});
      assert pairs == (set c | c in row - {b} :: (a, c)) + {(a, b)};
    } else {
      assert pairs == {};
    }
  }

  lemma OneRowMore(m: Links, k: string)
    requires k in m
    ensures Sizes(m) - {k} == Sizes(m - {k})
    ensures |Pairs(m)| == |Pairs(m - {k})| + |m[k]|
  {
    RowCount(k, m[k]);
    var row := set b | b in m[k] :: (k, b);
    assert Pairs(m) == Pairs(m - {k}) + row && Pairs(m - {k}) !! row;
  }

  /** The sizes of all rows add up to the number of pairs. */
  lemma {:induction false} TotalIsPairs(m: Links)
    ensures Total(Sizes(m)) == |Pairs(m)|
    decreases m.Keys
  {
    hide Pairs;
    if m == map[] {
      NoPairs();
    } else {
      var k :| k in m;
      hide Total;
      TotalSplit(Sizes(m), k);
      OneRowMore(m, k);
      TotalIsPairs(m - {k});
    }
  }

  lemma NoPairs()
    ensures Pairs(map[]) == {} && Sizes(map[]) == map[]
  {}

  lemma {:induction false} SwapCount(pairs: set<(string, string)>)
    ensures |set p | p in pairs :: (p.1, p.0)| == |pairs|
  {
    var swapped := set p | p in pairs :: (p.1, p.0);
    if pairs != {} {
      var p :| p in pairs;
      SwapCount(pairs - {p});
      assert swapped == (set q | q in pairs - {p} :: (q.1, q.0)) + {(p.1, p.0)};
    } else {
      assert swapped == {};
    }
  }

  lemma MirrorCount(forward: Links, reverse: Links)
    requires Mirror(forward, reverse)
    ensures Total(Sizes(forward)) == Total(Sizes(reverse))
  {
    TotalIsPairs(forward);
    TotalIsPairs(reverse);
    SwapCount(Pairs(forward));
    var swapped := set p | p in Pairs(forward) :: (p.1, p.0);
    forall a, b
      ensures (b, a) in swapped <==> (b, a) in Pairs(reverse)
    {
      assert (a, b) in Pairs(forward) <==> b in At(forward, a);
      assert (b, a) in Pairs(reverse) <==> a in At(reverse, b);
      if (b, a) in swapped {
        var p :| p in Pairs(forward) && (p.1, p.0) == (b, a);
        assert p == (a, b);
      }
    }
    assert swapped == Pairs(reverse);
  }

  /** `graph_edges`: the sizes of all forward rows. */
  ghost function EdgeCount(g: Graph): nat {
    Total(Sizes(g.downstream)) + Total(Sizes(g.uses))
  }

  lemma EdgeCountIsPairs(g: Graph)
    ensures EdgeCount(g) == |Pairs(g.downstream)| + |Pairs(g.uses)|
  {
    TotalIsPairs(g.downstream);
    TotalIsPairs(g.uses);
  }

  /** The degree of every node: the sizes of its rows in all four maps. */
  function Degrees(g: Graph): map<string, nat> {
    map k | k in Nodes(g) ::
      |At(g.downstream, k)| + |At(g.uses, k)| + |At(g.upstream, k)| + |At(g.usedBy, k)|
  }

  ghost function Rows(m: Links, keys: set<string>): map<string, nat> {
    map k | k in keys :: |At(m, k)|
  }

  lemma OneKeyLess(m: Links, keys: set<string>, k: string)
    requires m.Keys <= keys && k in keys
    ensures Rows(m, keys) - {k} == Rows(m - {k}, keys - {k}) && k in Rows(m, keys)
    ensures k in m ==> Sizes(m) - {k} == Sizes(m - {k}) && Rows(m, keys)[k] == Sizes(m)[k]
    ensures k !in m ==> m - {k} == m && Rows(m, keys)[k] == 0
  {}

  lemma {:induction false} RowsTotal(m: Links, keys: set<string>)
    requires m.Keys <= keys
    ensures Total(Rows(m, keys)) == Total(Sizes(m))
    decreases keys
  {
    hide Total, Rows;
    if keys == {} {
      NoKeys(m);
    } else {
      var k :| k in keys;
      RowsTotal(m - {k}, keys - {k});
      OneKeyLess(m, keys, k);
      TotalSplit(Rows(m, keys), k);
      if k in m {
        TotalSplit(Sizes(m), k);
      }
    }
  }

  lemma NoKeys(m: Links)
    requires m.Keys == {}
    ensures Rows(m, {}) == Sizes(m)
  {}

  ghost function FourRows(a: Links, b: Links, c: Links, d: Links, keys: set<string>): map<string, nat> {
    map k | k in keys :: |At(a, k)| + |At(b, k)| + |At(c, k)| + |At(d, k)|
  }

  lemma FourSplit(a: Links, b: Links, c: Links, d: Links, keys: set<string>, k: string)
    requires k in keys
    ensures Total(FourRows(a, b, c, d, keys)) ==
            |At(a, k)| + |At(b, k)| + |At(c, k)| + |At(d, k)| + Total(FourRows(a, b, c, d, keys - {k}))
  {
    TotalSplit(FourRows(a, b, c, d, keys), k);
    assert FourRows(a, b, c, d, keys) - {k} == FourRows(a, b, c, d, keys - {k});
  }

  lemma {:induction false} FourTotals(a: Links, b: Links, c: Links, d: Links, keys: set<string>)
    ensures Total(FourRows(a, b, c, d, keys)) ==
            Total(Rows(a, keys)) + Total(Rows(b, keys)) + Total(Rows(c, keys)) + Total(Rows(d, keys))
    decreases keys
  {
    hide At, FourRows, Rows, Total;
    if keys != {} {
      var k :| k in keys;
      FourTotals(a, b, c, d, keys - {k});
      FourSplit(a, b, c, d, keys, k);
      RowsSplit(a, keys, k);
      RowsSplit(b, keys, k);
      RowsSplit(c, keys, k);
      RowsSplit(d, keys, k);
    } else {
      NoRows(a, b, c, d);
    }
  }

  lemma NoRows(a: Links, b: Links, c: Links, d: Links)
    ensures Total(FourRows(a, b, c, d, {})) == 0
    ensures Total(Rows(a, {})) == Total(Rows(b, {})) == Total(Rows(c, {})) == Total(Rows(d, {})) == 0
  {
    assert FourRows(a, b, c, d, {}) == map[] && Rows(a, {}) == map[] && Rows(b, {}) == map[];
    assert Rows(c, {}) == map[] && Rows(d, {}) == map[];
  }

  lemma RowsSplit(m: Links, keys: set<string>, k: string)
    requires k in keys
    ensures Total(Rows(m, keys)) == |At(m, k)| + Total(Rows(m, keys - {k}))
  {
    TotalSplit(Rows(m, keys), k);
    assert Rows(m, keys) - {k} == Rows(m, keys - {k});
  }

  /** The degrees of a consistent index add up to twice its edges. */
  lemma DegreesAddUp(g: Graph)
    requires Consistent(g)
    ensures Total(Degrees(g)) == 2 * EdgeCount(g)
  {
    var keys := Nodes(g);
    assert Degrees(g) == FourRows(g.downstream, g.uses, g.upstream, g.usedBy, keys);
    RowsOfNodes(g);
    hide Total, Rows, FourRows, Sizes, Mirror, Degrees, Nodes;
    FourTotals(g.downstream, g.uses, g.upstream, g.usedBy, keys);
    MirrorCount(g.downstream, g.upstream);
    MirrorCount(g.uses, g.usedBy);
  }

  lemma RowsOfNodes(g: Graph)
    ensures Total(Rows(g.downstream, Nodes(g))) == Total(Sizes(g.downstream))
    ensures Total(Rows(g.upstream, Nodes(g))) == Total(Sizes(g.upstream))
    ensures Total(Rows(g.uses, Nodes(g))) == Total(Sizes(g.uses))
    ensures Total(Rows(g.usedBy, Nodes(g))) == Total(Sizes(g.usedBy))
  {
    hide Total, Rows, Sizes;
    RowsTotal(g.downstream, Nodes(g));
    RowsTotal(g.uses, Nodes(g));
    RowsTotal(g.upstream, Nodes(g));
    RowsTotal(g.usedBy, Nodes(g));
  }

  // ---- Runs ----

  datatype Change = Put(u: Upsert) | Remove(ids: seq<string>)

  function Applied(g: Graph, c: Change): Graph {
    match c
    case Put(u) => Upserted(g, u)
    case Remove(ids) => Removed(g, Elements(ids))
  }

  function After(changes: seq<Change>): Graph {
    if changes == [] then EMPTY else Applied(After(changes[..|changes| - 1]), changes[|changes| - 1])
  }

  /** Whatever is upserted with its outgoing edges and removed again, the maps stay exact inverses, the
      endpoints of all edges are nodes and the degrees count every edge twice. */
  lemma {:induction false} EveryRunIsConsistent(changes: seq<Change>)
    requires forall c :: c in changes && c.Put? ==> c.u.calledBy == [] && c.u.usedBy == []
    ensures Consistent(After(changes))
    ensures Total(Degrees(After(changes))) == 2 * EdgeCount(After(changes))
  {
    if changes != [] {
      var n := |changes| - 1;
      EveryRunIsConsistent(changes[..n]);
      match changes[n] {
        case Put(u) =>
          assert changes[n] in changes;
          UpsertConsistent(After(changes[..n]), u);
        case Remove(ids) =>
          RemoveConsistent(After(changes[..n]), Elements(ids));
      }
    }
    assert Consistent(After(changes));
    DegreesAddUp(After(changes));
  }

  predicate DoesNotMention(c: Change, v: string) {
    c.Put? ==> c.u.calledBy == [] && c.u.usedBy == [] && c.u.id != v && v !in c.u.calls && v !in Used(c.u)
  }

  /** A symbol that is removed and not put or pointed at again is nowhere at the end of the run. */
  lemma {:induction false} RemovedStaysGone(changes: seq<Change>, ids: seq<string>, later: seq<Change>, v: string)
    requires v in ids
    requires forall c :: c in later ==> DoesNotMention(c, v)
    ensures v !in Nodes(After(changes + [Remove(ids)] + later))
    ensures forall a :: v !in At(After(changes + [Remove(ids)] + later).downstream, a)
                        && v !in At(After(changes + [Remove(ids)] + later).uses, a)
    decreases |later|
  {
    hide Applied, Nodes, At, DoesNotMention;
    var all := changes + [Remove(ids)] + later;
    var n := |all| - 1;
    if later == [] {
      assert all[..n] == changes && all[n] == Remove(ids);
      RemovedIsGone(After(changes), ids, v);
    } else {
      var m := |later| - 1;
      assert all[..n] == changes + [Remove(ids)] + later[..m] && all[n] == later[m];
      RemovedStaysGone(changes, ids, later[..m], v);
      NotAdded(After(all[..n]), all[n], v);
    }
  }

  lemma RemovedIsGone(g: Graph, ids: seq<string>, v: string)
    requires v in ids
    ensures v !in Nodes(Applied(g, Remove(ids)))
    ensures forall a :: v !in At(Applied(g, Remove(ids)).downstream, a) && v !in At(Applied(g, Remove(ids)).uses, a)
  {
    RemoveForgets(g, Elements(ids), v);
  }

  lemma KeysExtended(forward: Links, reverse: Links, id: string, targets: set<string>, sources: set<string>)
    ensures Extend(forward, id, targets).Keys == forward.Keys + {id}
    ensures Extend(AddToEach(reverse, targets, id), id, sources).Keys == reverse.Keys + targets + {id}
  {
    hide At;
  }

  /** An upsert makes nodes of the symbol and its targets, and of nothing else. */
  lemma NodesUpserted(g: Graph, u: Upsert)
    ensures Nodes(Upserted(g, u)) == Nodes(g) + {u.id} + Elements(u.calls) + Used(u)
  {
    hide Extend, AddToEach, Elements, Used;
    KeysExtended(g.downstream, g.upstream, u.id, Elements(u.calls), Elements(u.calledBy));
    KeysExtended(g.uses, g.usedBy, u.id, Used(u), Elements(u.usedBy));
  }

  lemma NotAddedNode(g: Graph, c: Change, v: string)
    requires v !in Nodes(g) && DoesNotMention(c, v)
    ensures v !in Nodes(Applied(g, c))
  {
    hide Upserted, Used;
    if c.Put? {
      hide Nodes;
      NodesUpserted(g, c.u);
    }
  }

  lemma NotAddedEdge(g: Graph, c: Change, v: string, a: string)
    requires v !in At(g.downstream, a) && v !in At(g.uses, a) && DoesNotMention(c, v)
    ensures v !in At(Applied(g, c).downstream, a) && v !in At(Applied(g, c).uses, a)
  {}

  lemma NotAdded(g: Graph, c: Change, v: string)
    requires v !in Nodes(g) && forall a :: v !in At(g.downstream, a) && v !in At(g.uses, a)
    requires DoesNotMention(c, v)
    ensures v !in Nodes(Applied(g, c))
    ensures forall a :: v !in At(Applied(g, c).downstream, a) && v !in At(Applied(g, c).uses, a)
  {
    hide Applied, Nodes, At, DoesNotMention;
    NotAddedNode(g, c, v);
    forall a
      ensures v !in At(Applied(g, c).downstream, a) && v !in At(Applied(g, c).uses, a)
    {
      NotAddedEdge(g, c, v, a);
    }
  }

  // ---- Where the edges come from ----

  /** The change at `i` puts the call from `a` to `b`, or the use, and no later one removes either end. */
  ghost predicate LastsFrom(changes: seq<Change>, i: nat, a: string, b: string, use: bool)
    requires i < |changes|
  {
    && changes[i].Put? && changes[i].u.id == a
    && (if use then b in Used(changes[i].u) else b in changes[i].u.calls)
    && forall j :: i < j < |changes| && changes[j].Remove? ==> a !in changes[j].ids && b !in changes[j].ids
  }

  lemma EdgesAfter(g: Graph, c: Change, a: string, b: string)
    ensures b in At(Applied(g, c).downstream, a) <==>
            if c.Put? then b in At(g.downstream, a) || (c.u.id == a && b in c.u.calls)
            else b in At(g.downstream, a) && a !in c.ids && b !in c.ids
    ensures b in At(Applied(g, c).uses, a) <==>
            if c.Put? then b in At(g.uses, a) || (c.u.id == a && b in Used(c.u))
            else b in At(g.uses, a) && a !in c.ids && b !in c.ids
  {
    hide Used;
    if c.Remove? {
      AtWithout(g.downstream, Elements(c.ids), a);
      AtWithout(g.uses, Elements(c.ids), a);
    }
  }

  ghost predicate Lasts(changes: seq<Change>, a: string, b: string, use: bool) {
    exists i :: 0 <= i < |changes| && LastsFrom(changes, i, a, b, use)
  }

  lemma LastsStep(changes: seq<Change>, a: string, b: string, use: bool)
    requires changes != []
    ensures
      var n := |changes| - 1;
      var c := changes[n];
      Lasts(changes, a, b, use) <==>
        if c.Put? then Lasts(changes[..n], a, b, use)
                       || (c.u.id == a && (if use then b in Used(c.u) else b in c.u.calls))
        else Lasts(changes[..n], a, b, use) && a !in c.ids && b !in c.ids
  {
    hide Used;
    var n := |changes| - 1;
    forall i | 0 <= i < n
      ensures LastsFrom(changes, i, a, b, use) <==>
              && LastsFrom(changes[..n], i, a, b, use)
              && (changes[n].Remove? ==> a !in changes[n].ids && b !in changes[n].ids)
    {
      assert forall j :: 0 <= j < n ==> changes[..n][j] == changes[j];
    }
    if changes[n].Put? && changes[n].u.id == a && (if use then b in Used(changes[n].u) else b in changes[n].u.calls) {
      assert LastsFrom(changes, n, a, b, use);
    }
  }

  /** The in-memory index only forgets by removal: over any run, an edge is there exactly when some upsert put it and
      neither end was removed since, whatever later upserts of its source said. */
  lemma {:induction false} EdgesOverRuns(changes: seq<Change>, a: string, b: string)
    ensures b in At(After(changes).downstream, a) <==> Lasts(changes, a, b, false)
    ensures b in At(After(changes).uses, a) <==> Lasts(changes, a, b, true)
  {
    hide LastsFrom, Applied, At, Used;
    if changes == [] {
      NoEdges(a, b);
    } else {
      var n := |changes| - 1;
      EdgesOverRuns(changes[..n], a, b);
      EdgesAfter(After(changes[..n]), changes[n], a, b);
      LastsStep(changes, a, b, false);
      LastsStep(changes, a, b, true);
    }
  }

  lemma NoEdges(a: string, b: string)
    ensures b !in At(EMPTY.downstream, a) && b !in At(EMPTY.uses, a)
  {}

  // ---- Nodes, metadata and provenance ----

  lemma UsedIff(u: Upsert, b: string)
    ensures b in Used(u) <==>
            if u.usesWithModes == [] then b in u.uses else exists modes :: (b, modes) in u.usesWithModes
  {
    if u.usesWithModes != [] && b in Used(u) {
      var i :| 0 <= i < |u.usesWithModes| && u.usesWithModes[i].0 == b;
      assert (b, u.usesWithModes[i].1) in u.usesWithModes;
    }
  }

  /** A removal takes exactly the removed symbols from the nodes. */
  lemma NodesRemoved(g: Graph, gone: set<string>)
    ensures Nodes(Removed(g, gone)) == Nodes(g) - gone
  {}

  predicate KeepsMetadata(c: Change, v: string) {
    match c
    case Put(u) => u.id != v || u.metadata.None?
    case Remove(ids) => v !in ids
  }

  /** The upsert at `i` is the last to say something of `v` before the end of the run, or before its removal. */
  ghost predicate Describes(changes: seq<Change>, i: nat, v: string)
    requires i < |changes|
  {
    && changes[i].Put? && changes[i].u.id == v && changes[i].u.metadata.Some?
    && forall j :: i < j < |changes| ==> KeepsMetadata(changes[j], v)
  }

  lemma DescribesEarlier(changes: seq<Change>, i: nat, v: string)
    requires i < |changes| - 1
    ensures Describes(changes, i, v) <==>
            Describes(changes[..|changes| - 1], i, v) && KeepsMetadata(changes[|changes| - 1], v)
  {
    hide KeepsMetadata;
    assert forall j :: 0 <= j < |changes| - 1 ==> changes[..|changes| - 1][j] == changes[j];
  }

  lemma LastDescribes(changes: seq<Change>, v: string)
    requires changes != []
    ensures var n := |changes| - 1; Describes(changes, n, v) <==> !KeepsMetadata(changes[n], v) && changes[n].Put?
  {}

  /** Over any run the metadata of a symbol are those of the last upsert that had some and was not undone by a removal
      of the symbol; without such an upsert there are none. */
  lemma {:induction false} MetadataOverRuns(changes: seq<Change>, v: string)
    ensures forall i: nat :: i < |changes| && Describes(changes, i, v) ==>
              v in After(changes).metadata && After(changes).metadata[v] == changes[i].u.metadata.value
    ensures (forall i: nat :: i < |changes| ==> !Describes(changes, i, v)) ==> v !in After(changes).metadata
  {
    hide Applied, Describes, KeepsMetadata;
    if changes != [] {
      var n := |changes| - 1;
      MetadataOverRuns(changes[..n], v);
      forall i: nat | i < n
        ensures Describes(changes, i, v) <==> Describes(changes[..n], i, v) && KeepsMetadata(changes[n], v)
      {
        DescribesEarlier(changes, i, v);
      }
      MetadataStep(After(changes[..n]), changes[n], v);
      LastDescribes(changes, v);
    }
  }

  lemma MetadataStep(g: Graph, c: Change, v: string)
    ensures
      var h := Applied(g, c);
      if KeepsMetadata(c, v) then
        (v in h.metadata <==> v in g.metadata) && (v in g.metadata ==> h.metadata[v] == g.metadata[v])
      else if c.Put? then c.u.id == v && v in h.metadata && c.u.metadata.Some? && h.metadata[v] == c.u.metadata.value
      else v !in h.metadata
  {}

  predicate KeepsProvenance(c: Change, v: string) {
    match c
    case Put(u) => u.id != v || u.edgeSource == ""
    case Remove(ids) => v !in ids
  }

  /** The upsert at `i` is the last to name where the edges of `v` come from. */
  ghost predicate Attributes(changes: seq<Change>, i: nat, v: string)
    requires i < |changes|
  {
    && changes[i].Put? && changes[i].u.id == v && changes[i].u.edgeSource != ""
    && forall j :: i < j < |changes| ==> KeepsProvenance(changes[j], v)
  }

  lemma AttributesEarlier(changes: seq<Change>, i: nat, v: string)
    requires i < |changes| - 1
    ensures Attributes(changes, i, v) <==>
            Attributes(changes[..|changes| - 1], i, v) && KeepsProvenance(changes[|changes| - 1], v)
  {
    hide KeepsProvenance;
    assert forall j :: 0 <= j < |changes| - 1 ==> changes[..|changes| - 1][j] == changes[j];
  }

  lemma LastAttributes(changes: seq<Change>, v: string)
    requires changes != []
    ensures var n := |changes| - 1; Attributes(changes, n, v) <==> !KeepsProvenance(changes[n], v) && changes[n].Put?
  {}

  /** The same for the provenance of its edges. */
  lemma {:induction false} ProvenanceOverRuns(changes: seq<Change>, v: string)
    ensures forall i: nat :: i < |changes| && Attributes(changes, i, v) ==>
              v in After(changes).edgeSource && After(changes).edgeSource[v] == changes[i].u.edgeSource
    ensures (forall i: nat :: i < |changes| ==> !Attributes(changes, i, v)) ==> v !in After(changes).edgeSource
  {
    hide Applied, Attributes, KeepsProvenance;
    if changes != [] {
      var n := |changes| - 1;
      ProvenanceOverRuns(changes[..n], v);
      forall i: nat | i < n
        ensures Attributes(changes, i, v) <==> Attributes(changes[..n], i, v) && KeepsProvenance(changes[n], v)
      {
        AttributesEarlier(changes, i, v);
      }
      ProvenanceStep(After(changes[..n]), changes[n], v);
      LastAttributes(changes, v);
    }
  }

  lemma ProvenanceStep(g: Graph, c: Change, v: string)
    ensures
      var h := Applied(g, c);
      if KeepsProvenance(c, v) then
        (v in h.edgeSource <==> v in g.edgeSource) && (v in g.edgeSource ==> h.edgeSource[v] == g.edgeSource[v])
      else if c.Put? then c.u.id == v && v in h.edgeSource && h.edgeSource[v] == c.u.edgeSource
      else v !in h.edgeSource
  {}
}
