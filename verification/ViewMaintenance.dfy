/** The incremental update as view maintenance: when its snapshot, its fingerprint and its graph are those a rebuild
    would give. */
module ViewMaintenance {
  import opened Ordering
  import opened Snapshots
  import opened IndexingService
  import opened Neo4jStore

  type Hash = set<string> -> string

  // ---- The snapshot ----

  lemma {:induction false} OutsideIsUntouched(chunks: seq<Chunk>, pairs: set<(string, string)>, paths: set<string>)
    requires forall c :: c in chunks ==> ((c.id, c.path) in pairs <==> c.path in paths)
    ensures Outside(chunks, pairs) == Untouched(chunks, paths)
  {
    if chunks != [] {
      assert chunks[0] in chunks && forall c :: c in chunks[1..] ==> c in chunks;
      OutsideIsUntouched(chunks[1..], pairs, paths);
    }
  }

  /** The rows taken out of the store are those of the files given to the update, all of them and no others. */
  lemma RowsTakenOut(w: Workspace, files: seq<string>, s: Snapshot, c: Chunk)
    requires w.LabelsPaths() && c in s.chunks
    ensures var d := DeltaOf(w, files, s);
      (c.id, c.path) in d.removed + Pairs(d.added) <==> c.path in files
  {
    hide NewEdges, StaleEdges, Untouched, Added, EligibleIds;
    var d := DeltaOf(w, files, s);
    if c.path in files {
      if c.id in Ids(w.Chunks(c.path)) {
        var e :| e in w.Chunks(c.path) && e.id == c.id;
        AddedChunks(w, files, e);
        assert (c.id, c.path) in Pairs(d.added);
      } else {
        assert (c.id, c.path) in d.removed;
      }
    } else if (c.id, c.path) in Pairs(d.added) {
      var e :| e in d.added && (e.id, e.path) == (c.id, c.path);
      AddedChunks(w, files, e);
    }
  }

  /** The stored chunks become those of the other files followed by the fresh ones, the first with each key. */
  lemma SnapshotIsUntouchedPlusFresh(w: Workspace, files: seq<string>, s: Snapshot, commit: string, hash: Hash)
    requires w.LabelsPaths()
    ensures var d := DeltaOf(w, files, s);
      NextSnapshot(d, s, commit, hash).chunks == Untouched(s.chunks, Elements(files)) + Deduped(Added(w, files), {})
  {
    hide NewEdges, StaleEdges, Untouched, Outside, Removed, Added, Deduped, EligibleIds;
    var d := DeltaOf(w, files, s);
    forall c | c in s.chunks
      ensures (c.id, c.path) in d.removed + Pairs(d.added) <==> c.path in Elements(files)
    {
      RowsTakenOut(w, files, s, c);
    }
    OutsideIsUntouched(s.chunks, d.removed + Pairs(d.added), Elements(files));
  }

  // ---- The fingerprint ----

  /** Every eligible fresh chunk that loses its place to an earlier one with the same id, path and line leaves its id
      to another eligible chunk. */
  ghost predicate NoIdLostToDuplicates(d: Delta) {
    forall c :: c in d.added && IsGraphEligible(c) && c !in Deduped(d.added, {}) ==>
      c.id in EligibleIds(d.existing + Deduped(d.added, {}))
  }

  lemma EligibleIdsAgreeIff(d: Delta)
    ensures EligibleIds(d.existing + d.added) == EligibleIds(d.existing + Deduped(d.added, {}))
       <==> NoIdLostToDuplicates(d)
  {
    hide IsGraphEligible;
    var kept := Deduped(d.added, {});
    assert forall c :: c in d.existing + kept ==> c in d.existing + d.added;
    if NoIdLostToDuplicates(d) {
      forall id | id in EligibleIds(d.existing + d.added)
        ensures id in EligibleIds(d.existing + kept)
      {
        var c :| c in d.existing + d.added && IsGraphEligible(c) && c.id == id;
        if c in d.existing || c in kept {
          assert c in d.existing + kept;
        }
      }
    } else {
      var c :| c in d.added && IsGraphEligible(c) && c !in kept && c.id !in EligibleIds(d.existing + kept);
      assert c in d.existing + d.added;
    }
  }

  /** The fingerprint written with the update is the one recomputed from the stored chunks exactly when no id is lost
      to duplicates. */
  lemma FingerprintAgreesIff(w: Workspace, files: seq<string>, s: Snapshot, commit: string, hash: Hash)
    requires w.LabelsPaths()
    requires forall a, b :: hash(a) == hash(b) ==> a == b
    requires forall a :: hash(a) != ""
    ensures var d := DeltaOf(w, files, s);
      var next := NextSnapshot(d, s, commit, hash);
      next.fingerprint == hash(EligibleIds(next.chunks)) <==> NoIdLostToDuplicates(d)
  {
    hide NewEdges, StaleEdges, Untouched, Outside, Removed, Added, Deduped, EligibleIds, NoIdLostToDuplicates;
    SnapshotIsUntouchedPlusFresh(w, files, s, commit, hash);
    EligibleIdsAgreeIff(DeltaOf(w, files, s));
  }

  /** A file with two chunks at one place, only the second of them eligible: its id is counted but not stored. */
  lemma DuplicateLosesId(w: Workspace, s: Snapshot)
    requires s.chunks == [] && w.text == map["a.rs" := ""] && w.sqlEdgesOf("a.rs", "") == []
    requires w.chunksOf("a.rs", "") == [Chunk("x", "a.rs", "mod", "", 1), Chunk("x", "a.rs", "fn", "", 1)]
    ensures !NoIdLostToDuplicates(DeltaOf(w, ["a.rs"], s))
  {
    hide Removed, NewEdges, StaleEdges;
    var outer, inner := Chunk("x", "a.rs", "mod", "", 1), Chunk("x", "a.rs", "fn", "", 1);
    var d := DeltaOf(w, ["a.rs"], s);
    OneFile(w);
    assert Key(outer) == Key(inner);
    assert [outer, inner][1..] == [inner];
    assert Deduped([outer, inner], {}) == [outer] + Deduped([inner], {} + {Key(outer)});
    assert Deduped([inner], {} + {Key(outer)}) == [];
    assert ShortName("x") == "x";
    assert d.added == [outer, inner] && inner in d.added && d.existing == [];
  }

  lemma OneFile(w: Workspace)
    requires w.text == map["a.rs" := ""]
    ensures Added(w, ["a.rs"]) == w.chunksOf("a.rs", "") && AddedSqlEdges(w, ["a.rs"]) == w.sqlEdgesOf("a.rs", "")
  {
    assert ["a.rs"][..0] == [];
    assert Added(w, ["a.rs"]) == Added(w, []) + w.Chunks("a.rs");
    assert AddedSqlEdges(w, ["a.rs"]) == AddedSqlEdges(w, []) + w.SqlEdges("a.rs");
  }

  // ---- The graph's symbols ----

  /** A removed id that an untouched file still defines is extracted again. */
  ghost predicate NoRemovedSurvivor(d: Delta) {
    forall c :: c in d.existing && !ShouldSkip(c) && c.id in GoneIds(d.removed) ==> c.id in GraphIds(d.added)
  }

  /** A symbol of a modified file that is not removed is still one the graph takes. */
  ghost predicate SurvivorsStay(d: Delta, s: Snapshot, paths: set<string>) {
    forall c :: c in s.chunks && !ShouldSkip(c) && c.path in paths && c.id !in GoneIds(d.removed) ==>
      c.id in GraphIds(d.existing + Deduped(d.added, {}))
  }

  /** No graph symbol is lost to a duplicate that the graph does not take. */
  ghost predicate NoSymbolLostToDuplicates(d: Delta) {
    forall c :: c in d.added && !ShouldSkip(c) && c !in Deduped(d.added, {}) ==>
      c.id in GraphIds(d.existing + Deduped(d.added, {}))
  }

  lemma GraphIdsOfBoth(xs: seq<Chunk>, ys: seq<Chunk>)
    ensures GraphIds(xs + ys) == GraphIds(xs) + GraphIds(ys)
  {
    hide ShouldSkip;
    assert forall c :: c in xs + ys <==> c in xs || c in ys;
  }

  /** After an update the graph has the symbols of a rebuild from the new snapshot exactly under three conditions on the
      delta, one for each way a symbol can go astray. */
  lemma SymbolsAgreeIff(d: Delta, s: Snapshot, paths: set<string>, g: Core)
    requires d.existing == Untouched(s.chunks, paths) && g.extracted == GraphIds(s.chunks)
    ensures NextGraph(d, g).extracted == GraphIds(d.existing + Deduped(d.added, {}))
       <==> NoRemovedSurvivor(d) && SurvivorsStay(d, s, paths) && NoSymbolLostToDuplicates(d)
  {
    hide ShouldSkip, GoneIds, Untouched, Deduped;
    var kept := Deduped(d.added, {});
    UntouchedHas(s.chunks, paths);
    GraphIdsOfBoth(d.existing, kept);
    if NoRemovedSurvivor(d) && SurvivorsStay(d, s, paths) && NoSymbolLostToDuplicates(d) {
      SymbolsAgree(d, s, paths, g);
    }
    if NextGraph(d, g).extracted == GraphIds(d.existing + kept) {
      SymbolsAgreeOnlyIf(d, s, paths, g);
    }
  }

  lemma SymbolsAgree(d: Delta, s: Snapshot, paths: set<string>, g: Core)
    requires d.existing == Untouched(s.chunks, paths) && g.extracted == GraphIds(s.chunks)
    requires NoRemovedSurvivor(d) && SurvivorsStay(d, s, paths) && NoSymbolLostToDuplicates(d)
    ensures NextGraph(d, g).extracted == GraphIds(d.existing + Deduped(d.added, {}))
  {
    hide ShouldSkip, GoneIds, Untouched;
    var kept := Deduped(d.added, {});
    UntouchedHas(s.chunks, paths);
    GraphIdsOfBoth(d.existing, kept);
    forall id | id in NextGraph(d, g).extracted
      ensures id in GraphIds(d.existing + kept)
    {
      if id in GraphIds(d.added) {
        var c :| c in d.added && !ShouldSkip(c) && c.id == id;
        assert c in kept ==> id in GraphIds(kept);
      } else {
        var c :| c in s.chunks && !ShouldSkip(c) && c.id == id;
        assert c.path !in paths ==> c in d.existing;
      }
    }
    forall id | id in GraphIds(d.existing + kept)
      ensures id in NextGraph(d, g).extracted
    {
      if id in GraphIds(kept) {
        var c :| c in kept && !ShouldSkip(c) && c.id == id;
        assert c in d.added;
      } else {
        var c :| c in d.existing && !ShouldSkip(c) && c.id == id;
        assert c in s.chunks;
      }
    }
  }

  lemma SymbolsAgreeOnlyIf(d: Delta, s: Snapshot, paths: set<string>, g: Core)
    requires d.existing == Untouched(s.chunks, paths) && g.extracted == GraphIds(s.chunks)
    requires NextGraph(d, g).extracted == GraphIds(d.existing + Deduped(d.added, {}))
    ensures NoRemovedSurvivor(d) && SurvivorsStay(d, s, paths) && NoSymbolLostToDuplicates(d)
  {
    hide ShouldSkip, GoneIds, Untouched;
    UntouchedHas(s.chunks, paths);
    GraphIdsOfBoth(d.existing, Deduped(d.added, {}));
    assert NextGraph(d, g).extracted == g.extracted - GoneIds(d.removed) + GraphIds(d.added);
    forall c | c in d.existing && !ShouldSkip(c) && c.id in GoneIds(d.removed)
      ensures c.id in GraphIds(d.added)
    {
      assert c.id in GraphIds(d.existing);
    }
    forall c | c in s.chunks && !ShouldSkip(c) && c.path in paths && c.id !in GoneIds(d.removed)
      ensures c.id in GraphIds(d.existing + Deduped(d.added, {}))
    {
      assert c.id in g.extracted;
    }
    forall c | c in d.added && !ShouldSkip(c)
      ensures c.id in GraphIds(d.existing + Deduped(d.added, {}))
    {
      assert c.id in GraphIds(d.added);
    }
  }

  /** Two files share an id and one of them is deleted: the id leaves the graph but not the snapshot. */
  lemma SharedIdIsLost(w: Workspace, s: Snapshot)
    requires w.text == map[]
    requires s.chunks == [Chunk("x", "a.rs", "fn", "", 1), Chunk("x", "b.rs", "fn", "", 1)]
    ensures var d := DeltaOf(w, ["a.rs"], s);
      NextGraph(d, Rebuilt(s)).extracted != GraphIds(d.existing + Deduped(d.added, {}))
  {
    hide NewEdges, StaleEdges;
    var d := DeltaOf(w, ["a.rs"], s);
    var there := Chunk("x", "b.rs", "fn", "", 1);
    UntouchedHas(s.chunks, Elements(["a.rs"]));
    assert s.chunks[1] == there && there in d.existing && s.chunks[0] in s.chunks;
    assert ("x", "a.rs") in d.removed && "x" in GoneIds(d.removed);
    assert ShortName("x") == "x";
    forall c
      ensures c !in d.added
    {
      AddedChunks(w, ["a.rs"], c);
    }
    SymbolsAgreeIff(d, s, Elements(["a.rs"]), Rebuilt(s));
  }

  // ---- The graph's edges ----

  /** How the graph labels the edges of a list. */
  function Labels(edges: seq<GraphEdge>): set<Edge> {
    set e | e in edges :: Labelled(e)
  }

  /** The new edges as the store keeps them: the first of each pair. */
  function StoredNew(d: Delta): seq<GraphEdge> {
    DedupedEdges(d.edges, {})
  }

  /** The graph leaves the outgoing edges of this old symbol alone. */
  predicate LeftAlone(d: Delta, s: Snapshot, id: string) {
    id in GraphIds(s.chunks) && id !in GoneIds(d.removed) && id !in GraphIds(d.added)
  }

  /** The store leaves this old edge alone. */
  predicate Outlasts(d: Delta, e: GraphEdge) {
    && e.source !in Ids(d.added) + GoneIds(d.removed) && e.target !in GoneIds(d.removed)
    && (e.source, e.target) !in EdgePairs(d.edges)
  }

  /** Every old edge that the graph keeps is kept by the store, or among the new ones again. */
  ghost predicate KeptEdgesAreStored(d: Delta, s: Snapshot) {
    forall e :: e in s.edges && LeftAlone(d, s, e.source) && e.target !in GoneIds(d.removed) ==>
      Outlasts(d, e) || Labelled(e) in Labels(StoredNew(d))
  }

  /** Every new edge that the graph gets is stored, if not with its relation then with one the graph labels alike. */
  ghost predicate NewEdgesAreStored(d: Delta) {
    forall e :: e in d.edges && e.source in GraphIds(d.added) ==> Labelled(e) in Labels(StoredNew(d))
  }

  /** A stored new edge whose source the graph leaves alone was there before. */
  ghost predicate StrayEdgesAreOld(d: Delta, s: Snapshot) {
    forall e :: e in StoredNew(d) && LeftAlone(d, s, e.source) ==>
      e.target !in GoneIds(d.removed) && Labelled(e) in Labels(s.edges)
  }

  ghost predicate EdgesStay(d: Delta, s: Snapshot) {
    KeptEdgesAreStored(d, s) && NewEdgesAreStored(d) && StrayEdgesAreOld(d, s)
  }

  /** The stored edges after the update: the old ones that outlast it, and the first new one of each pair. */
  lemma StoredEdges(d: Delta, s: Snapshot, e: GraphEdge)
    requires d.stale == StaleEdges(s.edges, Ids(d.added), GoneIds(d.removed))
    ensures e in EdgesOutside(s.edges, d.stale + EdgePairs(d.edges)) + StoredNew(d) <==>
            (e in s.edges && Outlasts(d, e)) || e in StoredNew(d)
  {
    hide Ids, GoneIds, StoredNew;
    if e in s.edges && (e.source, e.target) in d.stale {
      var f :| f in s.edges && (f.source in Ids(d.added) + GoneIds(d.removed) || f.target in GoneIds(d.removed))
               && (f.source, f.target) == (e.source, e.target);
    }
  }

  lemma LiveEdges(d: Delta, s: Snapshot, x: Edge)
    ensures x in NextGraph(d, Rebuilt(s)).edges <==>
      || (exists e :: e in s.edges && LeftAlone(d, s, e.source) && e.target !in GoneIds(d.removed) && Labelled(e) == x)
      || (exists e :: e in d.edges && e.source in GraphIds(d.added) && Labelled(e) == x)
  {
    hide ShouldSkip, GoneIds, GraphIds;
    if e :| e in s.edges && LeftAlone(d, s, e.source) && e.target !in GoneIds(d.removed) && Labelled(e) == x {
      assert x in Rebuilt(s).edges;
    }
    if x in NextGraph(d, Rebuilt(s)).edges && x in CoreWithout(Rebuilt(s), GoneIds(d.removed)).edges
       && x.source !in GraphIds(d.added) {
      var e :| e in s.edges && e.source in GraphIds(s.chunks) && Labelled(e) == x;
      assert LeftAlone(d, s, e.source);
    }
  }

  lemma RebuiltEdges(s: Snapshot, x: Edge)
    ensures x in Rebuilt(s).edges <==> exists e :: e in s.edges && e.source in GraphIds(s.chunks) && Labelled(e) == x
  {
    hide GraphIds;
  }

  lemma TakenAreExtracted(chunks: seq<Chunk>)
    ensures GraphIds(chunks) <= Ids(chunks)
  {
    hide ShouldSkip;
  }

  /** What `next` must be for the two lemmas below: the updated snapshot, its symbols already in agreement. */
  ghost predicate SymbolsInStep(d: Delta, s: Snapshot, next: Snapshot) {
    && d.stale == StaleEdges(s.edges, Ids(d.added), GoneIds(d.removed))
    && next.edges == EdgesOutside(s.edges, d.stale + EdgePairs(d.edges)) + StoredNew(d)
    && GraphIds(next.chunks) == GraphIds(s.chunks) - GoneIds(d.removed) + GraphIds(d.added)
  }

  lemma SourceInStep(d: Delta, s: Snapshot, next: Snapshot, id: string)
    requires SymbolsInStep(d, s, next)
    ensures id in GraphIds(next.chunks) <==> LeftAlone(d, s, id) || id in GraphIds(d.added)
    ensures id in GraphIds(d.added) ==> id in Ids(d.added)
  {
    hide GraphIds, GoneIds, Ids;
    TakenAreExtracted(d.added);
  }

  lemma LiveEdgeIsRebuilt(d: Delta, s: Snapshot, next: Snapshot, x: Edge)
    requires SymbolsInStep(d, s, next) && EdgesStay(d, s) && x in NextGraph(d, Rebuilt(s)).edges
    ensures x in Rebuilt(next).edges
  {
    hide SymbolsInStep, LeftAlone, GraphIds, GoneIds, Outlasts, NextGraph, Rebuilt, StoredNew;
    LiveEdges(d, s, x);
    RebuiltEdges(next, x);
    var e: GraphEdge;
    if y :| y in s.edges && LeftAlone(d, s, y.source) && y.target !in GoneIds(d.removed) && Labelled(y) == x {
      e := y;
      if Outlasts(d, e) {
        IsStored(d, s, next, e);
        SourceInStep(d, s, next, e.source);
        return;
      }
    } else {
      e :| e in d.edges && e.source in GraphIds(d.added) && Labelled(e) == x;
    }
    var f :| f in StoredNew(d) && Labelled(f) == x;
    IsStored(d, s, next, f);
    SourceInStep(d, s, next, e.source);
  }

  lemma IsStored(d: Delta, s: Snapshot, next: Snapshot, e: GraphEdge)
    requires SymbolsInStep(d, s, next)
    ensures e in next.edges <==> (e in s.edges && Outlasts(d, e)) || e in StoredNew(d)
    ensures e in StoredNew(d) ==> e in d.edges
  {
    hide Outlasts, GraphIds, GoneIds, Ids;
    StoredEdges(d, s, e);
  }

  lemma RebuiltEdgeIsLive(d: Delta, s: Snapshot, next: Snapshot, x: Edge)
    requires SymbolsInStep(d, s, next) && EdgesStay(d, s) && x in Rebuilt(next).edges
    ensures x in NextGraph(d, Rebuilt(s)).edges
  {
    hide SymbolsInStep, LeftAlone, GraphIds, GoneIds, NextGraph, Rebuilt, StoredNew, Ids;
    LiveEdges(d, s, x);
    RebuiltEdges(next, x);
    var e :| e in next.edges && e.source in GraphIds(next.chunks) && Labelled(e) == x;
    IsStored(d, s, next, e);
    SourceInStep(d, s, next, e.source);
    if e in StoredNew(d) && e.source !in GraphIds(d.added) {
      var f :| f in s.edges && Labelled(f) == x;
    }
  }

  /** With the symbols in agreement the edges of the live graph are those of a rebuild exactly when every old edge the
      graph keeps is stored, every new one it gets is stored, and no stored new one is a stranger to it. */
  lemma EdgesAgreeIff(d: Delta, s: Snapshot, next: Snapshot)
    requires SymbolsInStep(d, s, next)
    ensures NextGraph(d, Rebuilt(s)).edges == Rebuilt(next).edges <==> EdgesStay(d, s)
  {
    hide SymbolsInStep, EdgesStay, NextGraph, Rebuilt;
    if EdgesStay(d, s) {
      forall x
        ensures x in NextGraph(d, Rebuilt(s)).edges <==> x in Rebuilt(next).edges
      {
        if x in NextGraph(d, Rebuilt(s)).edges {
          LiveEdgeIsRebuilt(d, s, next, x);
        }
        if x in Rebuilt(next).edges {
          RebuiltEdgeIsLive(d, s, next, x);
        }
      }
    }
    if NextGraph(d, Rebuilt(s)).edges == Rebuilt(next).edges {
      EdgesAgreeOnlyIf(d, s, next);
    }
  }

  lemma EdgesAgreeOnlyIf(d: Delta, s: Snapshot, next: Snapshot)
    requires SymbolsInStep(d, s, next) && NextGraph(d, Rebuilt(s)).edges == Rebuilt(next).edges
    ensures EdgesStay(d, s)
  {
    hide SymbolsInStep, LeftAlone, GraphIds, GoneIds, NextGraph, Rebuilt, StoredNew, Ids;
    forall e | e in s.edges && LeftAlone(d, s, e.source) && e.target !in GoneIds(d.removed)
      ensures Outlasts(d, e) || Labelled(e) in Labels(StoredNew(d))
    {
      LiveEdges(d, s, Labelled(e));
      var f := StoredAs(d, s, next, Labelled(e));
    }
    forall e | e in d.edges && e.source in GraphIds(d.added)
      ensures Labelled(e) in Labels(StoredNew(d))
    {
      LiveEdges(d, s, Labelled(e));
      var f := StoredAs(d, s, next, Labelled(e));
      SourceInStep(d, s, next, e.source);
    }
    forall e | e in StoredNew(d) && LeftAlone(d, s, e.source)
      ensures e.target !in GoneIds(d.removed) && Labelled(e) in Labels(s.edges)
    {
      IsStored(d, s, next, e);
      SourceInStep(d, s, next, e.source);
      RebuiltEdges(next, Labelled(e));
      LiveEdges(d, s, Labelled(e));
      NotTaken(d, s, e.source);
      var f :| f in s.edges && LeftAlone(d, s, f.source) && f.target !in GoneIds(d.removed)
               && Labelled(f) == Labelled(e);
    }
  }

  lemma NotTaken(d: Delta, s: Snapshot, id: string)
    requires LeftAlone(d, s, id)
    ensures id !in GraphIds(d.added)
  {}

  lemma StoredAs(d: Delta, s: Snapshot, next: Snapshot, x: Edge) returns (f: GraphEdge)
    requires SymbolsInStep(d, s, next) && x in Rebuilt(next).edges
    ensures Labelled(f) == x && ((f in s.edges && Outlasts(d, f)) || f in StoredNew(d))
  {
    hide SymbolsInStep, GraphIds, Rebuilt, StoredNew, Outlasts;
    RebuiltEdges(next, x);
    f :| f in next.edges && f.source in GraphIds(next.chunks) && Labelled(f) == x;
    IsStored(d, s, next, f);
  }

  // ---- The update and the rebuild ----

  /** What makes an update give what a rebuild would, on the symbols and on the edges. */
  ghost predicate Clean(w: Workspace, files: seq<string>, s: Snapshot) {
    var d := DeltaOf(w, files, s);
    && NoRemovedSurvivor(d) && SurvivorsStay(d, s, Elements(files)) && NoSymbolLostToDuplicates(d)
    && EdgesStay(d, s)
  }

  /** After an update the live graph has the symbols and the edges a rebuild from the new snapshot would have if and
      only if the update is clean. */
  lemma IncrementalIsRebuildIff(w: Workspace, files: seq<string>, s: Snapshot, commit: string, hash: Hash)
    requires w.LabelsPaths()
    ensures var d := DeltaOf(w, files, s);
      NextGraph(d, Rebuilt(s)) == Rebuilt(NextSnapshot(d, s, commit, hash)) <==> Clean(w, files, s)
  {
    hide NewEdges, Untouched, Added, Removed, Deduped, ShouldSkip, EligibleIds, StaleEdges, GoneIds, GraphIds, Ids,
         EdgesStay, NoRemovedSurvivor, NoSymbolLostToDuplicates, SurvivorsStay, Outside, EdgesOutside, DedupedEdges;
    var d := DeltaOf(w, files, s);
    var next := NextSnapshot(d, s, commit, hash);
    SnapshotIsUntouchedPlusFresh(w, files, s, commit, hash);
    SymbolsAgreeIff(d, s, Elements(files), Rebuilt(s));
    if NextGraph(d, Rebuilt(s)).extracted == GraphIds(next.chunks) {
      EdgesAgreeIff(d, s, next);
    }
  }

  /** A re-extracted id that is a graph symbol and not removed keeps a chunk the graph takes. */
  ghost predicate ReextractedStay(d: Delta, g: Core) {
    forall id :: id in Ids(d.added) && id in g.extracted && id !in GoneIds(d.removed) ==> id in GraphIds(d.added)
  }

  /** The recomputed edges leave re-extracted symbols, one relation to a pair. */
  ghost predicate EdgesAreTheirs(d: Delta) {
    && (forall e :: e in d.edges ==> e.source in Ids(d.added))
    && OneRelation(d.edges)
  }

  /** The edges the extractors declare start at symbols extracted from the same files. */
  ghost predicate SqlEdgesAreTheirs(w: Workspace, files: seq<string>) {
    forall e :: e in AddedSqlEdges(w, files) ==> e.source in Ids(Added(w, files))
  }

  /** Call and use edges start at the chunks they are extracted from. */
  lemma {:induction false} RegexEdgesStart(w: Workspace, chunks: seq<Chunk>, all: seq<Chunk>, e: GraphEdge)
    requires e in RegexEdges(w, chunks, all)
    ensures e.source in Ids(chunks)
  {
    hide ShouldSkipEdges;
    var front, c := chunks[..|chunks| - 1], chunks[|chunks| - 1];
    assert chunks == front + [c];
    if e in RegexEdges(w, front, all) {
      RegexEdgesStart(w, front, all, e);
    } else {
      assert e in CallEdges(c, w.callTargets(c, all)) + UseEdges(c, w.typeTargets(c, all));
      assert e.source == c.id && c in chunks;
    }
  }

  lemma {:induction false} KnownTargetsAreSome(edges: seq<GraphEdge>, known: set<string>, e: GraphEdge)
    requires e in KnownTargets(edges, known)
    ensures e in edges
  {
    if e in KnownTargets(edges[1..], known) {
      KnownTargetsAreSome(edges[1..], known, e);
    }
  }

  lemma NewEdgesAreTheirs(w: Workspace, files: seq<string>, s: Snapshot)
    requires SqlEdgesAreTheirs(w, files) && OneRelation(DeltaOf(w, files, s).edges)
    ensures EdgesAreTheirs(DeltaOf(w, files, s))
  {
    hide OneRelation, Untouched, Added, Removed, StaleEdges, RegexEdges, KnownTargets, Ids;
    var d := DeltaOf(w, files, s);
    var all := d.existing + d.added;
    forall e | e in d.edges
      ensures e.source in Ids(d.added)
    {
      if e in RegexEdges(w, d.added, all) {
        RegexEdgesStart(w, d.added, all, e);
      } else {
        KnownTargetsAreSome(AddedSqlEdges(w, files), Ids(all), e);
      }
    }
  }

  lemma ReextractedStaySurvive(w: Workspace, files: seq<string>, s: Snapshot, g: Core)
    requires w.LabelsPaths() && g.extracted == GraphIds(s.chunks)
    requires ReextractedStay(DeltaOf(w, files, s), g) && NoSymbolLostToDuplicates(DeltaOf(w, files, s))
    ensures SurvivorsStay(DeltaOf(w, files, s), s, Elements(files))
  {
    hide NewEdges, StaleEdges, Untouched, Added, ShouldSkip, Deduped;
    var d := DeltaOf(w, files, s);
    var kept := Deduped(d.added, {});
    GraphIdsOfBoth(d.existing, kept);
    forall c | c in s.chunks && !ShouldSkip(c) && c.path in files && c.id !in GoneIds(d.removed)
      ensures c.id in GraphIds(d.existing + kept)
    {
      assert (c.id, c.path) !in d.removed;
      RowsTakenOut(w, files, s, c);
      assert c.id in Ids(d.added) && c.id in GraphIds(s.chunks);
      var e :| e in d.added && !ShouldSkip(e) && e.id == c.id;
      assert e in kept ==> e.id in GraphIds(kept);
    }
  }

  /** The usual case: nothing removed survives elsewhere, nothing re-extracted turns into a chunk the graph skips,
      extractor edges start in their own files, and no two new edges join the same symbols. */
  lemma OrdinaryIsClean(w: Workspace, files: seq<string>, s: Snapshot)
    requires w.LabelsPaths()
    requires NoRemovedSurvivor(DeltaOf(w, files, s)) && NoSymbolLostToDuplicates(DeltaOf(w, files, s))
    requires ReextractedStay(DeltaOf(w, files, s), Rebuilt(s))
    requires SqlEdgesAreTheirs(w, files) && OneRelation(DeltaOf(w, files, s).edges)
    ensures Clean(w, files, s)
  {
    hide NewEdges, Untouched, Added, Removed, Deduped, ShouldSkip, StaleEdges, GoneIds, GraphIds, Ids, EdgesStay,
         EdgesAreTheirs, ReextractedStay, NoRemovedSurvivor, NoSymbolLostToDuplicates, SurvivorsStay,
         SqlEdgesAreTheirs, OneRelation;
    ReextractedStaySurvive(w, files, s, Rebuilt(s));
    NewEdgesAreTheirs(w, files, s);
    OrdinaryEdgesStay(DeltaOf(w, files, s), s);
  }

  lemma OrdinaryEdgesStay(d: Delta, s: Snapshot)
    requires ReextractedStay(d, Rebuilt(s)) && EdgesAreTheirs(d)
    ensures EdgesStay(d, s)
  {
    hide GraphIds, GoneIds, Ids, OneRelation;
    forall e | e in d.edges
      ensures e in StoredNew(d)
    {
      DedupedEdgesKeepAll(d.edges, {}, e);
    }
    forall id | id in Ids(d.added)
      ensures !LeftAlone(d, s, id)
    {
      assert Rebuilt(s).extracted == GraphIds(s.chunks);
    }
  }

  /** A symbol that both calls and uses another: the store keeps the call alone, the graph both. */
  lemma TwoRelationsLoseOne(w: Workspace, s: Snapshot, c: Chunk, commit: string, hash: Hash)
    requires c == Chunk("x", "a.rs", "fn", "", 1) && s.chunks == [c] && s.edges == []
    requires w.text == map["a.rs" := ""] && w.chunksOf("a.rs", "") == [c] && w.sqlEdgesOf("a.rs", "") == []
    requires forall all :: w.callTargets(c, all) == ["y"] && w.typeTargets(c, all) == ["y"]
    ensures var d := DeltaOf(w, ["a.rs"], s);
      NextGraph(d, Rebuilt(s)) != Rebuilt(NextSnapshot(d, s, commit, hash))
  {
    hide Removed, Untouched, StaleEdges, NextGraph, Rebuilt, NextSnapshot;
    var d := DeltaOf(w, ["a.rs"], s);
    OneFile(w);
    assert ShortName("x") == "x";
    var calls, uses := GraphEdge("x", "y", "calls"), GraphEdge("x", "y", "uses");
    OneFileEdges(w, c, d.existing + d.added);
    assert d.edges == [calls, uses];
    assert [calls, uses][1..] == [uses];
    assert StoredNew(d) == [calls] + DedupedEdges([uses], {} + {("x", "y")});
    assert DedupedEdges([uses], {} + {("x", "y")}) == [];
    assert uses in d.edges && c in d.added && uses.source in GraphIds(d.added);
    assert Labelled(uses) !in Labels(StoredNew(d));
    IncrementalIsRebuildIff(w, ["a.rs"], s, commit, hash);
  }

  lemma OneFileEdges(w: Workspace, c: Chunk, all: seq<Chunk>)
    requires c == Chunk("x", "a.rs", "fn", "", 1)
    requires w.callTargets(c, all) == ["y"] && w.typeTargets(c, all) == ["y"]
    ensures RegexEdges(w, [c], all) == [GraphEdge("x", "y", "calls"), GraphEdge("x", "y", "uses")]
  {
    assert [c][..0] == [];
    assert ShortName("x") == "x";
    assert RegexEdges(w, [c], all) == RegexEdges(w, [], all) + (CallEdges(c, ["y"]) + UseEdges(c, ["y"]));
  }

  // ---- Whole runs ----

  datatype Step =
    | Index(chunks: seq<Chunk>, edges: seq<GraphEdge>, commit: string)
    | Sync(w: Workspace, files: seq<string>, commit: string)

  /** The stored snapshot and the live graph. */
  datatype Service = Service(snapshot: Snapshot, graph: Core)

  function After(x: Service, step: Step, hash: Hash): Service {
    match step
    case Index(chunks, edges, commit) =>
      var s := Snapshot(chunks, edges, commit, hash(EligibleIds(chunks)));
      Service(s, Rebuilt(s))
    case Sync(w, files, commit) =>
      var d := DeltaOf(w, files, x.snapshot);
      Service(NextSnapshot(d, x.snapshot, commit, hash), NextGraph(d, x.graph))
  }

  ghost predicate CleanStep(x: Service, step: Step) {
    step.Sync? ==>
      && step.w.LabelsPaths() && Clean(step.w, step.files, x.snapshot)
      && NoIdLostToDuplicates(DeltaOf(step.w, step.files, x.snapshot))
  }

  function Run(x: Service, steps: seq<Step>, hash: Hash): Service {
    if steps == [] then x else After(Run(x, steps[..|steps| - 1], hash), steps[|steps| - 1], hash)
  }

  ghost predicate CleanRun(x: Service, steps: seq<Step>, hash: Hash) {
    forall i :: 0 <= i < |steps| ==> CleanStep(Run(x, steps[..i], hash), steps[i])
  }

  /** The graph is a rebuild of the snapshot, and the stored fingerprint is that of the stored chunks. */
  ghost predicate InStep(x: Service, hash: Hash) {
    x.graph == Rebuilt(x.snapshot) && x.snapshot.fingerprint == hash(EligibleIds(x.snapshot.chunks))
  }

  lemma StepKeepsInStep(x: Service, step: Step, hash: Hash)
    requires InStep(x, hash) && CleanStep(x, step) && forall a :: hash(a) != ""
    ensures InStep(After(x, step, hash), hash)
  {
    hide Clean, NoIdLostToDuplicates, DeltaOf, NextGraph, EligibleIds, Rebuilt, Untouched, Deduped, Added;
    match step
    case Index(_, _, _) =>
    case Sync(w, files, commit) =>
      var d := DeltaOf(w, files, x.snapshot);
      IncrementalIsRebuildIff(w, files, x.snapshot, commit, hash);
      SnapshotIsUntouchedPlusFresh(w, files, x.snapshot, commit, hash);
      EligibleIdsAgreeIff(d);
      DeltaParts(w, files, x.snapshot);
  }

  lemma DeltaParts(w: Workspace, files: seq<string>, s: Snapshot)
    ensures DeltaOf(w, files, s).existing == Untouched(s.chunks, Elements(files))
    ensures DeltaOf(w, files, s).added == Added(w, files)
  {}

  /** Over any clean run the graph is what a rebuild would give, and the snapshot and the live graph count the same
      symbols exactly when every blank constructor's id is also an ordinary symbol's. */
  lemma {:induction false} RunsStayInStep(x: Service, steps: seq<Step>, hash: Hash)
    requires InStep(x, hash) && CleanRun(x, steps, hash) && forall a :: hash(a) != ""
    ensures InStep(Run(x, steps, hash), hash)
    ensures var y := Run(x, steps, hash);
      EligibleIds(y.snapshot.chunks) == FilteredIds(y.graph.extracted)
      <==> forall c :: c in y.snapshot.chunks && IsBlankConstructor(c) ==> c.id in y.graph.extracted
  {
    hide CleanStep, After, EligibleIds, FilteredIds, GraphIds, IsBlankConstructor;
    if steps != [] {
      var n := |steps| - 1;
      forall i | 0 <= i < n
        ensures CleanStep(Run(x, steps[..n][..i], hash), steps[..n][i])
      {
        assert steps[..n][..i] == steps[..i];
      }
      RunsStayInStep(x, steps[..n], hash);
      StepKeepsInStep(Run(x, steps[..n], hash), steps[n], hash);
    }
    UniversesAgreeIff(Run(x, steps, hash).snapshot.chunks);
    RebuiltIds(Run(x, steps, hash).snapshot);
  }

  /** No chunk of the step is a blank constructor; a function cut out of its file always contains its own header. */
  ghost predicate NotBlank(step: Step) {
    match step
    case Index(chunks, _, _) => forall c :: c in chunks ==> !IsBlankConstructor(c)
    case Sync(w, _, _) => forall path, c :: c in w.Chunks(path) ==> !IsBlankConstructor(c)
  }

  lemma StepStaysNotBlank(x: Service, step: Step, hash: Hash)
    requires NotBlank(step) && forall c :: c in x.snapshot.chunks ==> !IsBlankConstructor(c)
    requires step.Sync? ==> step.w.LabelsPaths()
    ensures forall c :: c in After(x, step, hash).snapshot.chunks ==> !IsBlankConstructor(c)
  {
    hide IsBlankConstructor, NewEdges, Added, Removed, StaleEdges, EligibleIds, NextGraph;
    match step
    case Index(_, _, _) =>
    case Sync(w, files, commit) =>
      hide NextSnapshot, Untouched, Deduped;
      var next := After(x, step, hash).snapshot;
      SnapshotIsUntouchedPlusFresh(w, files, x.snapshot, commit, hash);
      UntouchedHas(x.snapshot.chunks, Elements(files));
      forall c | c in next.chunks
        ensures !IsBlankConstructor(c)
      {
        if c !in x.snapshot.chunks {
          AddedChunks(w, files, c);
        }
      }
  }

  /** Over any clean run on chunks that are not blank, the stored fingerprint is the one the live graph gives. */
  lemma {:induction false} RunsAgreeOnFingerprint(x: Service, steps: seq<Step>, hash: Hash)
    requires InStep(x, hash) && CleanRun(x, steps, hash) && forall a :: hash(a) != ""
    requires forall c :: c in x.snapshot.chunks ==> !IsBlankConstructor(c)
    requires forall i :: 0 <= i < |steps| ==> NotBlank(steps[i])
    ensures var y := Run(x, steps, hash);
      && EligibleIds(y.snapshot.chunks) == FilteredIds(y.graph.extracted)
      && y.snapshot.fingerprint == hash(FilteredIds(y.graph.extracted))
  {
    hide After, EligibleIds, FilteredIds, IsBlankConstructor, NotBlank, CleanStep;
    RunsStayInStep(x, steps, hash);
    RunStaysNotBlank(x, steps, hash);
  }

  lemma {:induction false} RunStaysNotBlank(x: Service, steps: seq<Step>, hash: Hash)
    requires CleanRun(x, steps, hash)
    requires forall c :: c in x.snapshot.chunks ==> !IsBlankConstructor(c)
    requires forall i :: 0 <= i < |steps| ==> NotBlank(steps[i])
    ensures forall c :: c in Run(x, steps, hash).snapshot.chunks ==> !IsBlankConstructor(c)
  {
    hide After, IsBlankConstructor, NotBlank, Clean, NoIdLostToDuplicates;
    if steps != [] {
      var n := |steps| - 1;
      forall i | 0 <= i < n
        ensures CleanStep(Run(x, steps[..n][..i], hash), steps[..n][i])
      {
        assert steps[..n][..i] == steps[..i];
      }
      RunStaysNotBlank(x, steps[..n], hash);
      assert CleanStep(Run(x, steps[..n], hash), steps[n]);
      StepStaysNotBlank(Run(x, steps[..n], hash), steps[n], hash);
    }
  }

  lemma RebuiltIds(s: Snapshot)
    ensures Rebuilt(s).extracted == GraphIds(s.chunks)
  {}
}
