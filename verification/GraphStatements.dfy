/** An upsert one Cypher statement at a time: what a cleanup thread can come between. */
module GraphStatements {
  import opened Neo4jStore
  import opened Ordering

  datatype Upsert = Upsert(id: string, hasKind: bool, calls: seq<string>, uses: seq<string>)

  datatype Statement =
    | MergeSymbol(id: string, hasKind: bool)
    | DeleteOutgoing(id: string)
    | MergeTarget(id: string)
    | Connect(edge: Edge)

  /** What a statement makes of a generation. */
  function Put(s: Slice, st: Statement): Slice {
    match st
    case MergeSymbol(id, hasKind) =>
      s.(ids := s.ids + {id}, extracted := if hasKind then s.extracted + {id} else s.extracted)
    case DeleteOutgoing(id) => s.(edges := set e | e in s.edges && e.source != id)
    case MergeTarget(id) => s.(ids := s.ids + {id})
    case Connect(e) => if e.source in s.ids && e.target in s.ids then s.(edges := s.edges + {e}) else s
  }

  function PutAll(s: Slice, plan: seq<Statement>): Slice {
    if plan == [] then s else Put(PutAll(s, plan[..|plan| - 1]), plan[|plan| - 1])
  }

  /** The same on the database. */
  function Do(db: Database, g: int, st: Statement): Database {
    match st
    case MergeSymbol(id, hasKind) =>
      var merged := db.Merge(Node(id, g));
      if hasKind then merged.SetKind(Node(id, g)) else merged
    case DeleteOutgoing(id) => db.DeleteOutgoing(Node(id, g))
    case MergeTarget(id) => db.Merge(Node(id, g))
    case Connect(e) => db.Connect(Link(e, g))
  }

  /** A statement does to its generation what `Put` says and nothing to any other. */
  lemma DoPuts(db: Database, g: int, st: Statement)
    ensures View(Do(db, g, st), g) == Put(View(db, g), st) && OthersKept(db, Do(db, g, st), g)
  {
    hide View;
    match st
    case MergeSymbol(id, hasKind) =>
      MergeAdds(db, g, id);
      SetKindAdds(db.Merge(Node(id, g)), g, id);
    case DeleteOutgoing(id) => DeleteOutgoingForgets(db, g, id);
    case MergeTarget(id) => MergeAdds(db, g, id);
    case Connect(e) =>
      NodeOfId(db, g, e.source);
      NodeOfId(db, g, e.target);
      if e.source in View(db, g).ids && e.target in View(db, g).ids {
        ConnectAdds(db, g, e);
      }
  }

  function TargetStatements(id: string, relation: Relation, targets: seq<string>): seq<Statement> {
    if targets == [] then [] else
      var n := |targets| - 1;
      TargetStatements(id, relation, targets[..n])
      + [MergeTarget(targets[n]), Connect(Edge(id, relation, targets[n]))]
  }

  /** The statements of `upsert_symbol`, in order. */
  function UpsertStatements(u: Upsert): seq<Statement> {
    [MergeSymbol(u.id, u.hasKind), DeleteOutgoing(u.id)]
    + TargetStatements(u.id, Calls, u.calls) + TargetStatements(u.id, Uses, u.uses)
  }

  lemma {:induction false} PutAllConcat(s: Slice, a: seq<Statement>, b: seq<Statement>)
    ensures PutAll(s, a + b) == PutAll(PutAll(s, a), b)
  {
    if b == [] {
      assert a + b == a;
    } else {
      var n := |b| - 1;
      assert (a + b)[..|a + b| - 1] == a + b[..n];
      PutAllConcat(s, a, b[..n]);
    }
  }

  lemma PutTwo(s: Slice, x: Statement, y: Statement)
    ensures PutAll(s, [x, y]) == Put(Put(s, x), y)
  {
    hide Put;
    assert [x, y][..1] == [x] && [x][..0] == [];
    assert PutAll(s, [x]) == Put(PutAll(s, []), x);
  }

  lemma {:induction false} TargetsPut(s: Slice, id: string, relation: Relation, targets: seq<string>)
    requires id in s.ids
    ensures PutAll(s, TargetStatements(id, relation, targets))
         == s.(ids := s.ids + Elements(targets), edges := s.edges + EdgesTo(id, relation, targets))
  {
    hide Elements, EdgesTo;
    if targets == [] {
      NoTargets(id, relation);
    } else {
      var n := |targets| - 1;
      var t := targets[n];
      TargetsPut(s, id, relation, targets[..n]);
      EdgesToGrow(id, relation, targets[..n], t);
      assert targets[..n] + [t] == targets;
      var last := [MergeTarget(t), Connect(Edge(id, relation, t))];
      PutAllConcat(s, TargetStatements(id, relation, targets[..n]), last);
      PutTwo(PutAll(s, TargetStatements(id, relation, targets[..n])), last[0], last[1]);
    }
  }

  lemma NoTargets(id: string, relation: Relation)
    ensures EdgesTo(id, relation, []) == {} && Elements<string>([]) == {}
  {}

  /** Together they replace the symbol's outgoing edges. */
  lemma UpsertIsItsStatements(s: Slice, u: Upsert)
    ensures PutAll(s, UpsertStatements(u)) == Upserted(s, u.id, u.hasKind, u.calls, u.uses)
  {
    hide Elements, EdgesTo, PutAll, TargetStatements;
    var first := [MergeSymbol(u.id, u.hasKind), DeleteOutgoing(u.id)];
    var calls, uses := TargetStatements(u.id, Calls, u.calls), TargetStatements(u.id, Uses, u.uses);
    PutAllConcat(s, first + calls, uses);
    PutAllConcat(s, first, calls);
    PutTwo(s, first[0], first[1]);
    TargetsPut(PutAll(s, first), u.id, Calls, u.calls);
    TargetsPut(PutAll(PutAll(s, first), calls), u.id, Uses, u.uses);
  }

  /** The statements of a whole rebuild. */
  function Statements(upserts: seq<Upsert>): seq<Statement> {
    if upserts == [] then [] else UpsertStatements(upserts[0]) + Statements(upserts[1..])
  }

  /** What the statements make of an empty generation. */
  function Built(plan: seq<Statement>): Slice {
    PutAll(NOTHING, plan)
  }

  ghost predicate BeginsWithSymbol(plan: seq<Statement>) {
    plan != [] ==> plan[0].MergeSymbol?
  }

  lemma StatementsBegin(upserts: seq<Upsert>)
    ensures BeginsWithSymbol(Statements(upserts))
  {}

  lemma {:induction false} IdsGrow(s: Slice, plan: seq<Statement>)
    requires plan != [] && plan[0].MergeSymbol?
    ensures plan[0].id in PutAll(s, plan).ids
  {
    var n := |plan| - 1;
    if n > 0 {
      IdsGrow(s, plan[..n]);
    } else {
      assert plan == [plan[0]];
    }
  }

  /** A rebuild leaves a node behind as soon as it has done anything. */
  lemma BuiltIsSomething(plan: seq<Statement>)
    requires BeginsWithSymbol(plan)
    ensures Built(plan).ids == {} <==> plan == []
    ensures Built(plan) == NOTHING <==> plan == []
  {
    hide Put;
    if plan != [] {
      IdsGrow(NOTHING, plan);
    }
  }

  lemma PutIsSound(s: Slice, st: Statement)
    requires Sound(s)
    ensures Sound(Put(s, st))
  {}
}
