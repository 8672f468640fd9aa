/** The Neo4j graph: nodes and relationships of every generation in one database, each Cypher statement a set
    operation, and the index object that speaks for one generation. */
module Neo4jStore {
  import opened Ordering

  datatype Relation = Calls | Uses

  datatype Edge = Edge(source: string, relation: Relation, target: string)

  datatype Node = Node(id: string, gen: int)

  /** A relationship; both of its ends are nodes of generation `gen`. */
  datatype Link = Link(edge: Edge, gen: int)

  /** `extracted` are the nodes whose `kind` is not null. */
  datatype Database = Database(nodes: set<Node>, extracted: set<Node>, links: set<Link>)
  {
    function Merge(n: Node): Database {
      this.(nodes := nodes + {n})
    }

    function SetKind(n: Node): Database {
      this.(extracted := extracted + {n})
    }

    function DeleteOutgoing(n: Node): Database {
      this.(links := set l | l in links && !(l.gen == n.gen && l.edge.source == n.id))
    }

    /** MATCH both ends, then MERGE the relationship. */
    function Connect(l: Link): Database {
      if Node(l.edge.source, l.gen) in nodes && Node(l.edge.target, l.gen) in nodes
      then this.(links := links + {l})
      else this
    }

    function DetachDelete(doomed: set<Node>): Database {
      Database(nodes - doomed, extracted - doomed,
               set l | l in links && Node(l.edge.source, l.gen) !in doomed && Node(l.edge.target, l.gen) !in doomed)
    }
  }

  /** What one generation holds. */
  datatype Slice = Slice(ids: set<string>, extracted: set<string>, edges: set<Edge>)

  const NOTHING := Slice({}, {}, {})

  function View(db: Database, g: int): Slice {
    Slice(set n | n in db.nodes && n.gen == g :: n.id,
          set n | n in db.extracted && n.gen == g :: n.id,
          set l | l in db.links && l.gen == g :: l.edge)
  }

  /** Every generation but `g` is as it was. */
  ghost predicate OthersKept(before: Database, after: Database, g: int) {
    forall g' :: g' != g ==> View(after, g') == View(before, g')
  }

  /** Extracted symbols and the ends of edges are nodes. */
  ghost predicate Sound(s: Slice) {
    s.extracted <= s.ids && forall e :: e in s.edges ==> e.source in s.ids && e.target in s.ids
  }

  function Without(s: Slice, gone: set<string>): Slice {
    Slice(s.ids - gone, s.extracted - gone, set e | e in s.edges && e.source !in gone && e.target !in gone)
  }

  function EdgesTo(id: string, relation: Relation, targets: seq<string>): set<Edge> {
    set t | t in targets :: Edge(id, relation, t)
  }

  lemma EdgesToGrow(id: string, relation: Relation, targets: seq<string>, t: string)
    ensures EdgesTo(id, relation, targets + [t]) == EdgesTo(id, relation, targets) + {Edge(id, relation, t)}
    ensures Elements(targets + [t]) == Elements(targets) + {t}
  {
    assert forall x :: x in targets + [t] <==> x in targets || x == t;
  }

  /** The outgoing edges that lists of targets stand for. */
  function Outgoing(id: string, calls: seq<string>, uses: seq<string>): set<Edge> {
    EdgesTo(id, Calls, calls) + EdgesTo(id, Uses, uses)
  }

  /** Replace-on-upsert: whatever `id` pointed at before is forgotten. */
  function Upserted(s: Slice, id: string, hasKind: bool, calls: seq<string>, uses: seq<string>): Slice {
    Slice(s.ids + {id} + Elements(calls) + Elements(uses),
          if hasKind then s.extracted + {id} else s.extracted,
          (set e | e in s.edges && e.source != id) + Outgoing(id, calls, uses))
  }

  // ---- What each statement does to a generation ----

  lemma DetachDeleteIds(db: Database, g: int, gone: set<string>, doomed: set<Node>)
    requires doomed == set n | n in db.nodes && n.gen == g && n.id in gone
    requires Sound(View(db, g))
    ensures View(db.DetachDelete(doomed), g) == Without(View(db, g), gone)
    ensures OthersKept(db, db.DetachDelete(doomed), g)
  {
    var after := db.DetachDelete(doomed);
    var s := View(db, g);
    assert forall n :: n in db.extracted && n.gen == g ==> n.id in s.extracted;
    assert View(after, g).extracted == s.extracted - gone by {
      forall n | n in db.extracted && n.gen == g
        ensures n in doomed <==> n.id in gone
      {
        assert n.id in s.ids;
        NodeOfId(db, g, n.id);
      }
    }
    assert View(after, g).edges == Without(s, gone).edges by {
      forall l | l in db.links && l.gen == g
        ensures Node(l.edge.source, g) in doomed <==> l.edge.source in gone
        ensures Node(l.edge.target, g) in doomed <==> l.edge.target in gone
      {
        assert l.edge in s.edges;
        NodeOfId(db, g, l.edge.source);
        NodeOfId(db, g, l.edge.target);
      }
    }
  }

  lemma NodeOfId(db: Database, g: int, id: string)
    ensures id in View(db, g).ids <==> Node(id, g) in db.nodes
  {
    if id in View(db, g).ids {
      var n :| n in db.nodes && n.gen == g && n.id == id;
      assert n == Node(id, g);
    }
  }

  lemma MergeAdds(db: Database, g: int, id: string)
    ensures View(db.Merge(Node(id, g)), g) == View(db, g).(ids := View(db, g).ids + {id})
    ensures OthersKept(db, db.Merge(Node(id, g)), g)
  {}

  lemma SetKindAdds(db: Database, g: int, id: string)
    ensures View(db.SetKind(Node(id, g)), g) == View(db, g).(extracted := View(db, g).extracted + {id})
    ensures OthersKept(db, db.SetKind(Node(id, g)), g)
  {}

  lemma DeleteOutgoingForgets(db: Database, g: int, id: string)
    ensures View(db.DeleteOutgoing(Node(id, g)), g)
         == View(db, g).(edges := set e | e in View(db, g).edges && e.source != id)
    ensures OthersKept(db, db.DeleteOutgoing(Node(id, g)), g)
  {}

  lemma ConnectAdds(db: Database, g: int, e: Edge)
    requires e.source in View(db, g).ids && e.target in View(db, g).ids
    ensures View(db.Connect(Link(e, g)), g) == View(db, g).(edges := View(db, g).edges + {e})
    ensures OthersKept(db, db.Connect(Link(e, g)), g)
  {
    NodeOfId(db, g, e.source);
    NodeOfId(db, g, e.target);
  }

  class Store {
    var db: Database

    constructor ()
      ensures db == Database({}, {}, {})
    {
      db := Database({}, {}, {});
    }
  }

  /** The highest generation with a node, 0 when there is none. */
  ghost predicate IsCurrentGen(db: Database, gen: int) {
    && (db.nodes == {} ==> gen == 0)
    && (db.nodes != {} ==> exists n :: n in db.nodes && n.gen == gen)
    && forall n :: n in db.nodes ==> n.gen <= gen
  }

  /** `MATCH (n:Symbol) RETURN max(n.gen)` */
  method CurrentGen(store: Store) returns (gen: int)
    ensures IsCurrentGen(store.db, gen)
  {
    gen := 0;
    var rest := store.db.nodes;
    while rest != {}
      invariant rest <= store.db.nodes
      invariant rest != store.db.nodes ==> exists n :: n in store.db.nodes && n.gen == gen
      invariant rest == store.db.nodes ==> gen == 0
      invariant rest != store.db.nodes ==> forall n :: n in store.db.nodes - rest ==> n.gen <= gen
    {
      var n :| n in rest;
      if rest == store.db.nodes || n.gen > gen {
        gen := n.gen;
      }
      rest := rest - {n};
    }
  }

  class Neo4jGraphIndex {
    const gen: int
    const store: Store

    constructor (store: Store, gen: int)
      ensures this.store == store && this.gen == gen
    {
      this.store, this.gen := store, gen;
    }

    function Now(): Slice
      reads this, store
    {
      View(store.db, gen)
    }

    method Reset()
      requires Sound(Now())
      modifies store
      ensures Now() == NOTHING && OthersKept(old(store.db), store.db, gen)
    {
      var db := store.db;
      DetachDeleteIds(db, gen, Now().ids, set n | n in db.nodes && n.gen == gen && n.id in Now().ids);
      assert (set n | n in db.nodes && n.gen == gen && n.id in Now().ids) == set n | n in db.nodes && n.gen == gen;
      store.db := db.DetachDelete(set n | n in db.nodes && n.gen == gen);
      assert forall e :: e in View(db, gen).edges ==> e.source in View(db, gen).ids;
    }

    method CleanupOtherGens()
      modifies store
      ensures Now() == old(Now())
      ensures forall g :: g != gen ==> View(store.db, g).ids == {}
      ensures (forall g :: Sound(old(View(store.db, g)))) ==> forall g :: g != gen ==> View(store.db, g) == NOTHING
    {
      var db := store.db;
      store.db := db.DetachDelete(set n | n in db.nodes && n.gen != gen);
      if forall g :: Sound(View(db, g)) {
        forall g | g != gen
          ensures View(store.db, g) == NOTHING
        {
          OtherGenGone(db, gen, g);
        }
      }
    }

    static lemma OtherGenGone(db: Database, gen: int, g: int)
      requires g != gen && Sound(View(db, g))
      ensures View(db.DetachDelete(set n | n in db.nodes && n.gen != gen), g) == NOTHING
    {
      forall n | n in db.extracted && n.gen == g
        ensures n in db.nodes
      {
        assert n.id in View(db, g).extracted;
        NodeOfId(db, g, n.id);
      }
      forall l | l in db.links && l.gen == g
        ensures Node(l.edge.source, g) in db.nodes
      {
        assert l.edge in View(db, g).edges;
        NodeOfId(db, g, l.edge.source);
      }
    }

    method RemoveSymbols(gone: set<string>)
      requires Sound(Now())
      modifies store
      ensures Now() == Without(old(Now()), gone) && Sound(Now())
      ensures OthersKept(old(store.db), store.db, gen)
    {
      if gone == {} {
        return;
      }
      var db := store.db;
      DetachDeleteIds(db, gen, gone, set n | n in db.nodes && n.gen == gen && n.id in gone);
      store.db := db.DetachDelete(set n | n in db.nodes && n.gen == gen && n.id in gone);
    }

    method GetSymbolIds() returns (ids: set<string>)
      ensures ids == Now().extracted
    {
      ids := set n | n in store.db.extracted && n.gen == gen :: n.id;
    }

    /** One target of an upsert: merge the node, then the relationship. */
    method AddTarget(e: Edge)
      requires e.source in Now().ids
      modifies store
      ensures Now() == old(Now().(ids := Now().ids + {e.target}, edges := Now().edges + {e}))
      ensures OthersKept(old(store.db), store.db, gen)
    {
      MergeAdds(store.db, gen, e.target);
      store.db := store.db.Merge(Node(e.target, gen));
      ConnectAdds(store.db, gen, e);
      store.db := store.db.Connect(Link(e, gen));
    }

    method AddTargets(id: string, relation: Relation, targets: seq<string>)
      requires id in Now().ids
      modifies store
      ensures Now() == old(Now().(ids := Now().ids + Elements(targets),
                                  edges := Now().edges + EdgesTo(id, relation, targets)))
      ensures OthersKept(old(store.db), store.db, gen)
    {
      hide View, EdgesTo, Elements;
      NoTargets(id, relation);
      for i := 0 to |targets|
        invariant Now() == old(Now().(ids := Now().ids + Elements(targets[..i]),
                                      edges := Now().edges + EdgesTo(id, relation, targets[..i])))
        invariant OthersKept(old(store.db), store.db, gen)
      {
        assert targets[..i + 1] == targets[..i] + [targets[i]];
        EdgesToGrow(id, relation, targets[..i], targets[i]);
        AddTarget(Edge(id, relation, targets[i]));
      }
      assert targets[..|targets|] == targets;
    }

    static lemma NoTargets(id: string, relation: Relation)
      ensures EdgesTo(id, relation, []) == {} && Elements<string>([]) == {}
    {}

    /** `upsert_symbol`: the statements in order replace the symbol's outgoing edges and touch nothing else. */
    method UpsertSymbol(id: string, hasKind: bool, calls: seq<string>, uses: seq<string>)
      modifies store
      ensures Now() == Upserted(old(Now()), id, hasKind, calls, uses)
      ensures OthersKept(old(store.db), store.db, gen)
    {
      MergeAdds(store.db, gen, id);
      store.db := store.db.Merge(Node(id, gen));
      if hasKind {
        SetKindAdds(store.db, gen, id);
        store.db := store.db.SetKind(Node(id, gen));
      }
      DeleteOutgoingForgets(store.db, gen, id);
      store.db := store.db.DeleteOutgoing(Node(id, gen));
      AddTargets(id, Calls, calls);
      AddTargets(id, Uses, uses);
    }
  }

  lemma UpsertedIsSound(s: Slice, id: string, calls: seq<string>, uses: seq<string>)
    requires Sound(s)
    ensures Sound(Upserted(s, id, true, calls, uses))
  {}
}
