/** The graph part of the full rebuild and the incremental update: the loops of the service. */
module IndexingService {
  import opened Options
  import opened Ordering
  import opened Snapshots
  import opened MetadataStore
  import opened Neo4jStore

  /** The source tree and its extractors. A path without text is a file that does not exist. */
  datatype Workspace = Workspace(
    text: map<string, string>,
    chunksOf: (string, string) -> seq<Chunk>,
    sqlEdgesOf: (string, string) -> seq<GraphEdge>,
    callTargets: (Chunk, seq<Chunk>) -> seq<string>,
    typeTargets: (Chunk, seq<Chunk>) -> seq<string>)
  {
    /** The extractors label every chunk with the path they were given. */
    ghost predicate LabelsPaths() {
      forall path, c :: path in text && c in chunksOf(path, text[path]) ==> c.path == path
    }

    function Chunks(path: string): seq<Chunk> {
      if path in text then chunksOf(path, text[path]) else []
    }

    function SqlEdges(path: string): seq<GraphEdge> {
      if path in text then sqlEdgesOf(path, text[path]) else []
    }
  }

  const EDGE_EXTRACTION_SKIP_KINDS := GRAPH_SKIP_KINDS + {"sql_table", "sql_column", "migration_block"}

  predicate ShouldSkipEdges(c: Chunk) {
    c.kind in EDGE_EXTRACTION_SKIP_KINDS || ShouldSkip(c)
  }

  // ---- Scanning the modified files ----

  /** Everything extracted from the files, in order. */
  function Added(w: Workspace, files: seq<string>): seq<Chunk> {
    if files == [] then [] else Added(w, files[..|files| - 1]) + w.Chunks(files[|files| - 1])
  }

  function AddedSqlEdges(w: Workspace, files: seq<string>): seq<GraphEdge> {
    if files == [] then [] else AddedSqlEdges(w, files[..|files| - 1]) + w.SqlEdges(files[|files| - 1])
  }

  /** The (id, path) rows of the files that the files no longer define. */
  function Removed(w: Workspace, chunks: seq<Chunk>, paths: set<string>): set<(string, string)> {
    set c | c in chunks && c.path in paths && c.id !in Ids(w.Chunks(c.path)) :: (c.id, c.path)
  }

  lemma {:induction false} AddedChunks(w: Workspace, files: seq<string>, c: Chunk)
    ensures c in Added(w, files) <==> exists path :: path in files && c in w.Chunks(path)
  {
    if files != [] {
      var front, last := files[..|files| - 1], files[|files| - 1];
      AddedChunks(w, front, c);
      assert files == front + [last];
    }
  }

  /** The first loop of the update. */
  method ScanFiles(w: Workspace, files: seq<string>, chunks: seq<Chunk>)
      returns (existing: seq<Chunk>, added: seq<Chunk>, removed: set<(string, string)>, sqlEdges: seq<GraphEdge>)
    ensures existing == Untouched(chunks, Elements(files))
    ensures added == Added(w, files) && sqlEdges == AddedSqlEdges(w, files)
    ensures removed == Removed(w, chunks, Elements(files))
  {
    hide Untouched, Removed, Elements;
    existing, added, removed, sqlEdges := chunks, [], {}, [];
    NoFiles(w, chunks);
    for i := 0 to |files|
      invariant existing == Untouched(chunks, Elements(files[..i]))
      invariant added == Added(w, files[..i]) && sqlEdges == AddedSqlEdges(w, files[..i])
      invariant removed == Removed(w, chunks, Elements(files[..i]))
    {
      var path := files[i];
      assert files[..i + 1][..i] == files[..i] && files[..i + 1][i] == path;
      OneMoreFile(w, files[..i], path, chunks);
      assert files[..i + 1] == files[..i] + [path];
      var oldIds := set c | c in existing && c.path == path :: c.id;
      if path !in w.text {
        removed := removed + set id | id in oldIds :: (id, path);
        existing := Untouched(existing, {path});
        continue;
      }
      var fileChunks := w.chunksOf(path, w.text[path]);
      var newIds := Ids(fileChunks);
      removed := removed + set id | id in oldIds - newIds :: (id, path);
      added := added + fileChunks;
      sqlEdges := sqlEdges + w.sqlEdgesOf(path, w.text[path]);
      existing := Untouched(existing, {path});
    }
    assert files[..|files|] == files;
  }

  lemma {:induction false} NoneUntouched(chunks: seq<Chunk>)
    ensures Untouched(chunks, {}) == chunks
  {
    if chunks != [] {
      NoneUntouched(chunks[1..]);
      assert chunks == [chunks[0]] + chunks[1..];
    }
  }

  lemma NoFiles(w: Workspace, chunks: seq<Chunk>)
    ensures Untouched(chunks, Elements([])) == chunks && Removed(w, chunks, Elements([])) == {}
  {
    assert Elements<string>([]) == {};
    NoneUntouched(chunks);
  }

  lemma {:induction false} UntouchedTwice(chunks: seq<Chunk>, a: set<string>, b: set<string>)
    ensures Untouched(Untouched(chunks, a), b) == Untouched(chunks, a + b)
  {
    if chunks != [] {
      UntouchedTwice(chunks[1..], a, b);
      var rest := Untouched(chunks[1..], a);
      assert ([chunks[0]] + rest)[1..] == rest;
    }
  }

  lemma OneMoreFile(w: Workspace, done: seq<string>, path: string, chunks: seq<Chunk>)
    ensures var existing := Untouched(chunks, Elements(done));
      var oldIds := set c | c in existing && c.path == path :: c.id;
      && Untouched(existing, {path}) == Untouched(chunks, Elements(done + [path]))
      && Removed(w, chunks, Elements(done + [path]))
      == Removed(w, chunks, Elements(done)) + set id | id in oldIds - Ids(w.Chunks(path)) :: (id, path)
    ensures path !in w.text ==> Ids(w.Chunks(path)) == {}
  {
    hide Ids;
    ElementsConcat(done, [path]);
    assert Elements([path]) == {path};
    UntouchedTwice(chunks, Elements(done), {path});
    assert path !in w.text ==> Ids(w.Chunks(path)) == {} by { NoIds(); }
    RemovedGrows(w, chunks, Elements(done), path);
  }

  lemma NoIds()
    ensures Ids([]) == {}
  {}

  lemma RemovedGrows(w: Workspace, chunks: seq<Chunk>, done: set<string>, path: string)
    ensures var oldIds := set c | c in Untouched(chunks, done) && c.path == path :: c.id;
      Removed(w, chunks, done + {path}) == Removed(w, chunks, done) +
        set id | id in oldIds - Ids(w.Chunks(path)) :: (id, path)
  {
    hide Ids;
    UntouchedHas(chunks, done);
    var existing := Untouched(chunks, done);
    var oldIds := set c | c in existing && c.path == path :: c.id;
    forall p | p in Removed(w, chunks, done + {path})
      ensures p in Removed(w, chunks, done) + set id | id in oldIds - Ids(w.Chunks(path)) :: (id, path)
    {
      var c :| c in chunks && c.path in done + {path} && c.id !in Ids(w.Chunks(c.path)) && p == (c.id, c.path);
      if c.path !in done {
        assert c in existing && c.id in oldIds;
      }
    }
  }

  // ---- Recomputing the edges ----

  function CallEdges(c: Chunk, targets: seq<string>): seq<GraphEdge> {
    seq(|targets|, i requires 0 <= i < |targets| => GraphEdge(c.id, targets[i], "calls"))
  }

  function UseEdges(c: Chunk, targets: seq<string>): seq<GraphEdge> {
    seq(|targets|, i requires 0 <= i < |targets| => GraphEdge(c.id, targets[i], "uses"))
  }

  function RegexEdges(w: Workspace, chunks: seq<Chunk>, all: seq<Chunk>): seq<GraphEdge> {
    if chunks == [] then [] else
      var c := chunks[|chunks| - 1];
      RegexEdges(w, chunks[..|chunks| - 1], all) +
        if ShouldSkipEdges(c) then [] else CallEdges(c, w.callTargets(c, all)) + UseEdges(c, w.typeTargets(c, all))
  }

  /** The extractor's own edges, without those to ids nothing has. */
  function KnownTargets(edges: seq<GraphEdge>, known: set<string>): seq<GraphEdge> {
    if edges == [] then []
    else (if edges[0].target in known then [edges[0]] else []) + KnownTargets(edges[1..], known)
  }

  function NewEdges(w: Workspace, files: seq<string>, all: seq<Chunk>): seq<GraphEdge> {
    RegexEdges(w, Added(w, files), all) + KnownTargets(AddedSqlEdges(w, files), Ids(all))
  }

  method ExtractEdges(w: Workspace, added: seq<Chunk>, all: seq<Chunk>) returns (edges: seq<GraphEdge>)
    ensures edges == RegexEdges(w, added, all)
  {
    edges := [];
    for i := 0 to |added|
      invariant edges == RegexEdges(w, added[..i], all)
    {
      var c := added[i];
      assert added[..i + 1][..i] == added[..i] && added[..i + 1][i] == c;
      if ShouldSkipEdges(c) {
        continue;
      }
      var before := edges;
      edges := edges + CallEdges(c, w.callTargets(c, all));
      edges := edges + UseEdges(c, w.typeTargets(c, all));
      assert edges == before + (CallEdges(c, w.callTargets(c, all)) + UseEdges(c, w.typeTargets(c, all)));
    }
    assert added[..|added|] == added;
  }

  // ---- Into the graph ----

  /** A relation other than "uses" is stored as a call. */
  function Labelled(e: GraphEdge): Edge {
    Edge(e.source, if e.relation == "uses" then Uses else Calls, e.target)
  }

  /** The edges leaving a symbol, as the graph labels them. */
  function EdgesFrom(edges: seq<GraphEdge>, id: string): set<Edge> {
    set e | e in edges && e.source == id :: Labelled(e)
  }

  function Get(m: map<string, seq<string>>, id: string): seq<string> {
    if id in m then m[id] else []
  }

  /** The edge grouping of both the rebuild and the update. */
  method GroupEdges(edges: seq<GraphEdge>) returns (calls: map<string, seq<string>>, uses: map<string, seq<string>>)
    ensures forall id :: Outgoing(id, Get(calls, id), Get(uses, id)) == EdgesFrom(edges, id)
  {
    hide Outgoing, Get, EdgesFrom;
    calls, uses := map[], map[];
    NoGroups();
    for i := 0 to |edges|
      invariant forall id :: Outgoing(id, Get(calls, id), Get(uses, id)) == EdgesFrom(edges[..i], id)
    {
      var e := edges[i];
      assert edges[..i + 1] == edges[..i] + [e];
      GroupOne(calls, uses, edges[..i], e);
      if e.relation == "uses" {
        uses := uses[e.source := Get(uses, e.source) + [e.target]];
      } else {
        calls := calls[e.source := Get(calls, e.source) + [e.target]];
      }
    }
    assert edges[..|edges|] == edges;
  }

  lemma NoGroups()
    ensures forall id :: Outgoing(id, Get(map[], id), Get(map[], id)) == EdgesFrom([], id)
  {}

  lemma GroupOne(calls: map<string, seq<string>>, uses: map<string, seq<string>>, edges: seq<GraphEdge>, e: GraphEdge)
    requires forall id :: Outgoing(id, Get(calls, id), Get(uses, id)) == EdgesFrom(edges, id)
    ensures var calls' := if e.relation == "uses" then calls else calls[e.source := Get(calls, e.source) + [e.target]];
      var uses' := if e.relation == "uses" then uses[e.source := Get(uses, e.source) + [e.target]] else uses;
      forall id :: Outgoing(id, Get(calls', id), Get(uses', id)) == EdgesFrom(edges + [e], id)
  {
    hide EdgesTo, EdgesFrom;
    var calls' := if e.relation == "uses" then calls else calls[e.source := Get(calls, e.source) + [e.target]];
    var uses' := if e.relation == "uses" then uses[e.source := Get(uses, e.source) + [e.target]] else uses;
    EdgesToGrow(e.source, Calls, Get(calls, e.source), e.target);
    EdgesToGrow(e.source, Uses, Get(uses, e.source), e.target);
    forall id
      ensures Outgoing(id, Get(calls', id), Get(uses', id)) == EdgesFrom(edges + [e], id)
    {
      EdgesFromGrow(edges, e, id);
    }
  }

  lemma EdgesFromGrow(edges: seq<GraphEdge>, e: GraphEdge, id: string)
    ensures EdgesFrom(edges + [e], id) == EdgesFrom(edges, id) + if e.source == id then {Labelled(e)} else {}
  {
    assert forall x :: x in edges + [e] <==> x in edges || x == e;
  }

  /** What the theorems are about: extracted symbols and edges, without the bare targets. */
  datatype Core = Core(extracted: set<string>, edges: set<Edge>)

  function CoreOf(s: Slice): Core {
    Core(s.extracted, s.edges)
  }

  /** The graph after upserting `ids` with their edges. */
  function Applied(g: Core, ids: set<string>, edges: seq<GraphEdge>): Core {
    Core(g.extracted + ids,
         (set e | e in g.edges && e.source !in ids) + (set e | e in edges && e.source in ids :: Labelled(e)))
  }

  /** The upsert loop of both the rebuild and the update. */
  method UpsertAll(graph: Neo4jGraphIndex, chunks: seq<Chunk>, edges: seq<GraphEdge>)
    requires Sound(graph.Now())
    modifies graph.store
    ensures CoreOf(graph.Now()) == Applied(old(CoreOf(graph.Now())), GraphIds(chunks), edges)
    ensures Sound(graph.Now()) && OthersKept(old(graph.store.db), graph.store.db, graph.gen)
  {
    hide ShouldSkip;
    var calls, uses := GroupEdges(edges);
    ghost var before := CoreOf(graph.Now());
    AppliedToNone(before, edges);
    for i := 0 to |chunks|
      invariant CoreOf(graph.Now()) == Applied(before, GraphIds(chunks[..i]), edges)
      invariant Sound(graph.Now()) && OthersKept(old(graph.store.db), graph.store.db, graph.gen)
    {
      var c := chunks[i];
      GraphIdsGrow(chunks, i);
      if ShouldSkip(c) {
        continue;
      }
      UpsertedIsSound(graph.Now(), c.id, Get(calls, c.id), Get(uses, c.id));
      UpsertApplies(graph.Now(), before, GraphIds(chunks[..i]), c.id, edges, Get(calls, c.id), Get(uses, c.id));
      graph.UpsertSymbol(c.id, true, Get(calls, c.id), Get(uses, c.id));
    }
    assert chunks[..|chunks|] == chunks;
  }

  lemma AppliedToNone(g: Core, edges: seq<GraphEdge>)
    ensures Applied(g, GraphIds([]), edges) == g
  {}

  lemma GraphIdsGrow(chunks: seq<Chunk>, i: nat)
    requires i < |chunks|
    ensures GraphIds(chunks[..i + 1]) == GraphIds(chunks[..i]) + if ShouldSkip(chunks[i]) then {} else {chunks[i].id}
  {
    hide ShouldSkip;
    assert chunks[..i + 1] == chunks[..i] + [chunks[i]];
  }

  lemma UpsertApplies(s: Slice, before: Core, ids: set<string>, id: string, edges: seq<GraphEdge>,
                      calls: seq<string>, uses: seq<string>)
    requires CoreOf(s) == Applied(before, ids, edges)
    requires Outgoing(id, calls, uses) == EdgesFrom(edges, id)
    ensures CoreOf(Upserted(s, id, true, calls, uses)) == Applied(before, ids + {id}, edges)
  {
    hide Outgoing;
  }

  /** The graph a full rebuild makes of a snapshot. */
  function Rebuilt(s: Snapshot): Core {
    Applied(Core({}, {}), GraphIds(s.chunks), s.edges)
  }

  /** The graph part of `_rebuild_graph_and_semantic_parallel`: a fresh generation, reset and filled. */
  method RebuildGraph(store: Store, s: Snapshot, gen: int) returns (graph: Neo4jGraphIndex)
    requires Sound(View(store.db, gen))
    modifies store
    ensures graph.store == store && graph.gen == gen
    ensures CoreOf(graph.Now()) == Rebuilt(s) && Sound(graph.Now())
    ensures OthersKept(old(store.db), store.db, gen)
  {
    graph := new Neo4jGraphIndex(store, gen);
    graph.Reset();
    UpsertAll(graph, s.chunks, s.edges);
  }

  // ---- The full index ----

  /** The snapshot of a whole source tree; `linked` stands for the links between SQL and entities. */
  function IndexedSnapshot(w: Workspace, files: seq<string>, linked: seq<Chunk> -> seq<GraphEdge>, commit: string,
                           hash: set<string> -> string): Snapshot {
    var all := Added(w, files);
    Snapshot(all, RegexEdges(w, all, all) + KnownTargets(AddedSqlEdges(w, files) + linked(all), Ids(all)), commit,
             hash(EligibleIds(all)))
  }

  /** `_index_rust_repository_locked`: extract everything, store it, and build a new generation from it. */
  method FullIndex(repository: InMemoryIndexMetadataRepository, store: Store, w: Workspace, files: seq<string>,
                   linked: seq<Chunk> -> seq<GraphEdge>, headCommit: string, hash: set<string> -> string)
      returns (graph: Neo4jGraphIndex)
    requires forall g :: Sound(View(store.db, g))
    modifies repository, store
    ensures repository.snapshot == Some(IndexedSnapshot(w, files, linked, headCommit, hash))
    ensures graph.store == store && IsCurrentGen(old(store.db), graph.gen - 1)
    ensures CoreOf(graph.Now()) == Rebuilt(repository.snapshot.value) && Sound(graph.Now())
    ensures OthersKept(old(store.db), store.db, graph.gen)
  {
    hide Untouched, Removed, Added, RegexEdges, EligibleIds, Applied, Sound;
    var existing, all, removed, sqlEdges := ScanFiles(w, files, []);
    var edges := ExtractEdges(w, all, all);
    edges := edges + KnownTargets(sqlEdges + linked(all), Ids(all));
    repository.ReplaceSnapshot(Snapshot(all, edges, headCommit, hash(EligibleIds(all))));
    var current := CurrentGen(store);
    graph := RebuildGraph(store, repository.snapshot.value, current + 1);
  }

  // ---- The incremental update ----

  /** The ids of the removed rows. */
  function GoneIds(removed: set<(string, string)>): set<string> {
    set p | p in removed :: p.0
  }

  /** The keys of the stored edges that touch a removed symbol or leave a modified one. */
  function StaleEdges(edges: seq<GraphEdge>, modified: set<string>, gone: set<string>): set<(string, string)> {
    set e | e in edges && (e.source in modified + gone || e.target in gone) :: (e.source, e.target)
  }

  /** What one update computes before it writes. */
  datatype Delta = Delta(existing: seq<Chunk>, added: seq<Chunk>, removed: set<(string, string)>,
                         edges: seq<GraphEdge>, stale: set<(string, string)>)

  function DeltaOf(w: Workspace, files: seq<string>, s: Snapshot): Delta {
    var existing, added := Untouched(s.chunks, Elements(files)), Added(w, files);
    var removed := Removed(w, s.chunks, Elements(files));
    Delta(existing, added, removed, NewEdges(w, files, existing + added),
          StaleEdges(s.edges, Ids(added), GoneIds(removed)))
  }

  /** The snapshot after the update; `hash` stands for the digest of a set of ids. */
  function NextSnapshot(d: Delta, s: Snapshot, commit: string, hash: set<string> -> string): Snapshot {
    Updated(s, d.added, d.removed, d.edges, d.stale, commit, hash(EligibleIds(d.existing + d.added)))
  }

  function CoreWithout(g: Core, gone: set<string>): Core {
    Core(g.extracted - gone, set e | e in g.edges && e.source !in gone && e.target !in gone)
  }

  /** The live graph after the update. */
  function NextGraph(d: Delta, g: Core): Core {
    Applied(CoreWithout(g, GoneIds(d.removed)), GraphIds(d.added), d.edges)
  }

  /** `_incremental_update_symbols_locked`; without a snapshot everything in `allFiles` is indexed instead, into a new
      generation. Returns the index that has the result. */
  method IncrementalUpdate(repository: InMemoryIndexMetadataRepository, graph: Neo4jGraphIndex, w: Workspace,
                           files: seq<string>, allFiles: seq<string>, linked: seq<Chunk> -> seq<GraphEdge>,
                           headCommit: string, hash: set<string> -> string)
      returns (live: Neo4jGraphIndex)
    requires forall g :: Sound(View(graph.store.db, g))
    modifies repository, graph.store
    ensures old(repository.snapshot) == None ==>
              && repository.snapshot == Some(IndexedSnapshot(w, allFiles, linked, headCommit, hash))
              && IsCurrentGen(old(graph.store.db), live.gen - 1)
              && CoreOf(live.Now()) == Rebuilt(repository.snapshot.value)
    ensures old(repository.snapshot).Some? ==>
              var s := old(repository.snapshot).value;
              var d := DeltaOf(w, files, s);
              && live == graph
              && repository.snapshot == Some(NextSnapshot(d, s, headCommit, hash))
              && CoreOf(graph.Now()) == NextGraph(d, old(CoreOf(graph.Now())))
    ensures live.store == graph.store && Sound(live.Now())
    ensures OthersKept(old(graph.store.db), graph.store.db, live.gen)
  {
    hide Untouched, Removed, Added, NewEdges, RegexEdges, EligibleIds, Updated, Applied, Sound, IsCurrentGen,
         IndexedSnapshot;
    var loaded := repository.LoadSnapshot();
    if loaded.None? {
      live := FullIndex(repository, graph.store, w, allFiles, linked, headCommit, hash);
      return;
    }
    var s := loaded.value;
    var existing, added, removed, sqlEdges := ScanFiles(w, files, s.chunks);
    var goneIds := GoneIds(removed);
    var all := existing + added;
    var newEdges := ExtractEdges(w, added, all);
    newEdges := newEdges + KnownTargets(sqlEdges, Ids(all));
    var stale := StaleEdges(s.edges, Ids(added), goneIds);
    ghost var d := DeltaOf(w, files, s);
    assert newEdges == d.edges by { EdgesOfDelta(w, files, s); }
    repository.UpdateIncremental(added, removed, newEdges, stale, headCommit, hash(EligibleIds(all)));
    if goneIds != {} {
      graph.RemoveSymbols(goneIds);
    }
    assert CoreOf(graph.Now()) == CoreWithout(old(CoreOf(graph.Now())), goneIds);
    UpsertAll(graph, added, newEdges);
    live := graph;
  }

  lemma EdgesOfDelta(w: Workspace, files: seq<string>, s: Snapshot)
    ensures var d := DeltaOf(w, files, s);
      d.edges == RegexEdges(w, d.added, d.existing + d.added)
               + KnownTargets(AddedSqlEdges(w, files), Ids(d.existing + d.added))
  {}
}
