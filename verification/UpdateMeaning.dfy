/** What the full index and the incremental update store and show, said of the source tree, the old snapshot and the old
    graph alone. */
module UpdateMeaning {
  import opened Eligibility
  import opened IndexingService
  import opened Neo4jStore
  import opened Ordering
  import opened Snapshots
  import opened ViewMaintenance

  // ---- Lists: one more at the end ----

  lemma {:induction false} UntouchedMore(chunks: seq<Chunk>, c: Chunk, paths: set<string>)
    ensures Untouched(chunks + [c], paths) == Untouched(chunks, paths) + if c.path in paths then [] else [c]
  {
    if chunks != [] {
      assert (chunks + [c])[1..] == chunks[1..] + [c];
      UntouchedMore(chunks[1..], c, paths);
    }
  }

  lemma {:induction false} OutsideMore(chunks: seq<Chunk>, c: Chunk, pairs: set<(string, string)>)
    ensures Outside(chunks + [c], pairs) == Outside(chunks, pairs) + if (c.id, c.path) in pairs then [] else [c]
  {
    if chunks != [] {
      assert (chunks + [c])[1..] == chunks[1..] + [c];
      OutsideMore(chunks[1..], c, pairs);
    }
  }

  /** A chunk at the end is kept unless an earlier one has its id, path and line. */
  lemma {:induction false} DedupedMore(chunks: seq<Chunk>, c: Chunk, seen: set<(string, string, nat)>)
    ensures Deduped(chunks + [c], seen) == Deduped(chunks, seen) +
              if (c.id, c.path, c.startLine) in seen
                 || exists d :: d in chunks && d.id == c.id && d.path == c.path && d.startLine == c.startLine
              then [] else [c]
  {
    if chunks != [] {
      var key := Key(chunks[0]);
      assert (chunks + [c])[1..] == chunks[1..] + [c] && chunks == [chunks[0]] + chunks[1..];
      DedupedMore(chunks[1..], c, if key in seen then seen else seen + {key});
      assert chunks[0] in chunks;
    }
  }

  lemma {:induction false} EdgesOutsideMore(edges: seq<GraphEdge>, e: GraphEdge, keys: set<(string, string)>)
    ensures EdgesOutside(edges + [e], keys) ==
            EdgesOutside(edges, keys) + if (e.source, e.target) in keys then [] else [e]
  {
    if edges != [] {
      assert (edges + [e])[1..] == edges[1..] + [e];
      EdgesOutsideMore(edges[1..], e, keys);
    }
  }

  /** An edge at the end is kept unless an earlier one joins the same symbols. */
  lemma {:induction false} DedupedEdgesMore(edges: seq<GraphEdge>, e: GraphEdge, seen: set<(string, string)>)
    ensures DedupedEdges(edges + [e], seen) == DedupedEdges(edges, seen) +
              if (e.source, e.target) in seen
                 || exists d :: d in edges && d.source == e.source && d.target == e.target
              then [] else [e]
  {
    if edges != [] {
      var key := (edges[0].source, edges[0].target);
      assert (edges + [e])[1..] == edges[1..] + [e] && edges == [edges[0]] + edges[1..];
      DedupedEdgesMore(edges[1..], e, if key in seen then seen else seen + {key});
      assert edges[0] in edges;
    }
  }

  lemma {:induction false} AddedConcat(w: Workspace, files: seq<string>, more: seq<string>)
    ensures Added(w, files + more) == Added(w, files) + Added(w, more)
    ensures AddedSqlEdges(w, files + more) == AddedSqlEdges(w, files) + AddedSqlEdges(w, more)
    decreases |more|
  {
    if more == [] {
      assert files + more == files;
    } else {
      var n := |more| - 1;
      assert (files + more)[..|files + more| - 1] == files + more[..n];
      AddedConcat(w, files, more[..n]);
    }
  }

  /** A file that exists adds what its extractors find in its text, one that does not adds nothing. */
  lemma AddedOne(w: Workspace, path: string)
    ensures path in w.text ==>
              && Added(w, [path]) == w.chunksOf(path, w.text[path])
              && AddedSqlEdges(w, [path]) == w.sqlEdgesOf(path, w.text[path])
    ensures path !in w.text ==> Added(w, [path]) == [] && AddedSqlEdges(w, [path]) == []
  {
    assert [path][..0] == [];
    assert Added(w, [path]) == Added(w, []) + w.Chunks(path);
    assert AddedSqlEdges(w, [path]) == AddedSqlEdges(w, []) + w.SqlEdges(path);
  }

  // ---- The recomputed edges ----

  /** `e` is a call or a use that the extractors read off chunk `c`. */
  ghost predicate ReadOff(w: Workspace, c: Chunk, all: seq<Chunk>, e: GraphEdge) {
    && e.source == c.id
    && ((e.relation == "calls" && e.target in w.callTargets(c, all))
        || (e.relation == "uses" && e.target in w.typeTargets(c, all)))
  }

  /** The chunks whose text is read for edges: those the graph takes, less tables, columns and migrations. */
  ghost predicate IsRead(c: Chunk) {
    !ShouldSkip(c) && c.kind != "sql_table" && c.kind != "sql_column" && c.kind != "migration_block"
  }

  lemma IsReadIff(c: Chunk)
    ensures ShouldSkipEdges(c) <==> !IsRead(c)
  {
    hide ShouldSkip;
    TakenIff(c);
  }

  lemma ReadOffIff(w: Workspace, c: Chunk, all: seq<Chunk>, e: GraphEdge)
    ensures e in CallEdges(c, w.callTargets(c, all)) + UseEdges(c, w.typeTargets(c, all)) <==> ReadOff(w, c, all, e)
  {
    var calls, uses := w.callTargets(c, all), w.typeTargets(c, all);
    if ReadOff(w, c, all, e) {
      if e.relation == "calls" {
        var i :| 0 <= i < |calls| && calls[i] == e.target;
        assert CallEdges(c, calls)[i] == e;
      } else {
        var i :| 0 <= i < |uses| && uses[i] == e.target;
        assert UseEdges(c, uses)[i] == e;
      }
    }
  }

  /** Chunks are read in their order. */
  lemma {:induction false} RegexEdgesConcat(w: Workspace, chunks: seq<Chunk>, more: seq<Chunk>, all: seq<Chunk>)
    ensures RegexEdges(w, chunks + more, all) == RegexEdges(w, chunks, all) + RegexEdges(w, more, all)
    decreases |more|
  {
    hide ShouldSkipEdges;
    if more == [] {
      assert chunks + more == chunks;
    } else {
      var n := |more| - 1;
      assert (chunks + more)[..|chunks + more| - 1] == chunks + more[..n];
      RegexEdgesConcat(w, chunks, more[..n], all);
    }
  }

  lemma {:induction false} RegexEdgesIff(w: Workspace, chunks: seq<Chunk>, all: seq<Chunk>, e: GraphEdge)
    ensures e in RegexEdges(w, chunks, all) <==> exists c :: c in chunks && IsRead(c) && ReadOff(w, c, all, e)
  {
    hide ShouldSkipEdges, ReadOff, IsRead;
    if chunks != [] {
      var front, c := chunks[..|chunks| - 1], chunks[|chunks| - 1];
      assert chunks == front + [c];
      RegexEdgesIff(w, front, all, e);
      ReadOffIff(w, c, all, e);
      IsReadIff(c);
    }
  }

  lemma {:induction false} KnownTargetsMore(edges: seq<GraphEdge>, e: GraphEdge, known: set<string>)
    ensures KnownTargets(edges + [e], known) == KnownTargets(edges, known) + if e.target in known then [e] else []
  {
    if edges == [] {
      assert [e][1..] == [];
    } else {
      assert (edges + [e])[1..] == edges[1..] + [e];
      KnownTargetsMore(edges[1..], e, known);
    }
  }

  lemma {:induction false} KnownTargetsIff(edges: seq<GraphEdge>, known: set<string>, e: GraphEdge)
    ensures e in KnownTargets(edges, known) <==> e in edges && e.target in known
  {
    if edges != [] {
      assert edges == [edges[0]] + edges[1..];
      KnownTargetsIff(edges[1..], known, e);
    }
  }

  lemma {:induction false} AddedSqlIff(w: Workspace, files: seq<string>, e: GraphEdge)
    ensures e in AddedSqlEdges(w, files) <==> exists path :: path in files && e in w.SqlEdges(path)
  {
    if files != [] {
      var front, last := files[..|files| - 1], files[|files| - 1];
      AddedSqlIff(w, front, e);
      assert files == front + [last];
    }
  }

  /** The new edges: what is read off the chunks of the files, and what their extractors declare with a known target. */
  lemma NewEdgesIff(w: Workspace, files: seq<string>, all: seq<Chunk>, e: GraphEdge)
    ensures e in NewEdges(w, files, all) <==>
            || (exists path, c :: path in files && c in w.Chunks(path) && IsRead(c) && ReadOff(w, c, all, e))
            || (exists path, d :: path in files && e in w.SqlEdges(path) && d in all && d.id == e.target)
  {
    hide RegexEdges, KnownTargets, Added, AddedSqlEdges, IsRead, ReadOff;
    RegexEdgesIff(w, Added(w, files), all, e);
    KnownTargetsIff(AddedSqlEdges(w, files), Ids(all), e);
    AddedSqlIff(w, files, e);
    forall c
      ensures c in Added(w, files) <==> exists path :: path in files && c in w.Chunks(path)
    {
      AddedChunks(w, files, c);
    }
  }

  // ---- The graph of a snapshot ----

  /** A rebuild shows the chunks the graph takes and, out of them, a call for every stored edge that is no use, and a
      use for every other. */
  lemma RebuiltHas(s: Snapshot, a: string, b: string)
    ensures a in Rebuilt(s).extracted <==> exists c :: c in s.chunks && c.id == a && !ShouldSkip(c)
    ensures Edge(a, Calls, b) in Rebuilt(s).edges <==>
            a in Rebuilt(s).extracted
            && exists e :: e in s.edges && e.source == a && e.target == b && e.relation != "uses"
    ensures Edge(a, Uses, b) in Rebuilt(s).edges <==>
            a in Rebuilt(s).extracted && GraphEdge(a, b, "uses") in s.edges
  {
    hide ShouldSkip, Rebuilt;
    RebuiltIds(s);
    RebuiltEdges(s, Edge(a, Calls, b));
    RebuiltEdges(s, Edge(a, Uses, b));
    if Edge(a, Uses, b) in Rebuilt(s).edges {
      var e :| e in s.edges && e.source in GraphIds(s.chunks) && Labelled(e) == Edge(a, Uses, b);
      assert e == GraphEdge(a, b, "uses");
    }
    if GraphEdge(a, b, "uses") in s.edges {
      assert Labelled(GraphEdge(a, b, "uses")) == Edge(a, Uses, b);
    }
  }

  // ---- The graph after an update ----

  /** Some row of the given files has the id, and its file no longer defines it. */
  ghost predicate IsGone(w: Workspace, files: seq<string>, s: Snapshot, id: string) {
    exists c :: c in s.chunks && c.id == id && c.path in files && forall d :: d in w.Chunks(c.path) ==> d.id != id
  }

  lemma GoneIff(w: Workspace, files: seq<string>, s: Snapshot, id: string)
    ensures id in GoneIds(DeltaOf(w, files, s).removed) <==> IsGone(w, files, s, id)
  {
    hide NewEdges, StaleEdges, Untouched, Added;
    var removed := DeltaOf(w, files, s).removed;
    if id in GoneIds(removed) {
      var p :| p in removed && p.0 == id;
      var c :| c in s.chunks && c.path in Elements(files) && c.id !in Ids(w.Chunks(c.path)) && p == (c.id, c.path);
      assert c.id == id;
    }
    if IsGone(w, files, s, id) {
      var c :| c in s.chunks && c.id == id && c.path in files && forall d :: d in w.Chunks(c.path) ==> d.id != id;
      assert (c.id, c.path) in removed;
    }
  }

  /** A chunk of the given files that the graph takes has the id. */
  ghost predicate IsUpserted(w: Workspace, files: seq<string>, id: string) {
    exists path, c :: path in files && c in w.Chunks(path) && c.id == id && !ShouldSkip(c)
  }

  lemma UpsertedIff(w: Workspace, files: seq<string>, s: Snapshot, id: string)
    ensures id in GraphIds(DeltaOf(w, files, s).added) <==> IsUpserted(w, files, id)
  {
    hide ShouldSkip, NewEdges, StaleEdges, Untouched, Added, Removed;
    forall c
      ensures c in Added(w, files) <==> exists path :: path in files && c in w.Chunks(path)
    {
      AddedChunks(w, files, c);
    }
  }

  /** After an update the graph shows a symbol if a given file defines it, or if it was there and is not gone. */
  lemma LiveSymbolsIff(w: Workspace, files: seq<string>, s: Snapshot, g: Core, id: string)
    ensures id in NextGraph(DeltaOf(w, files, s), g).extracted <==>
            IsUpserted(w, files, id) || (id in g.extracted && !IsGone(w, files, s, id))
  {
    hide GraphIds, GoneIds, DeltaOf, IsUpserted, IsGone;
    GoneIff(w, files, s, id);
    UpsertedIff(w, files, s, id);
  }

  /** It shows an edge if the source is upserted and the edge is among the new ones, or if the edge was there, its
      source is not upserted and neither end is gone: callers of a re-extracted symbol stay. */
  lemma LiveEdgesIff(w: Workspace, files: seq<string>, s: Snapshot, g: Core, x: Edge)
    ensures var d := DeltaOf(w, files, s);
      x in NextGraph(d, g).edges <==>
        if IsUpserted(w, files, x.source) then
          if x.relation == Uses then GraphEdge(x.source, x.target, "uses") in d.edges
          else exists e :: e in d.edges && e.source == x.source && e.target == x.target && e.relation != "uses"
        else x in g.edges && !IsGone(w, files, s, x.source) && !IsGone(w, files, s, x.target)
  {
    hide GraphIds, GoneIds, DeltaOf, IsUpserted, IsGone;
    GoneIff(w, files, s, x.source);
    GoneIff(w, files, s, x.target);
    UpsertedIff(w, files, s, x.source);
    var d := DeltaOf(w, files, s);
    if x in NextGraph(d, g).edges && x.source in GraphIds(d.added) {
      var e :| e in d.edges && e.source in GraphIds(d.added) && Labelled(e) == x;
      assert x.relation == Uses ==> e == GraphEdge(x.source, x.target, "uses");
    }
    if x.relation == Uses && GraphEdge(x.source, x.target, "uses") in d.edges {
      assert Labelled(GraphEdge(x.source, x.target, "uses")) == x;
    }
  }

  // ---- The snapshot after an update ----

  /** `e` is the first of the edges that join its two symbols. */
  ghost predicate IsFirst(edges: seq<GraphEdge>, e: GraphEdge) {
    exists i :: 0 <= i < |edges| && edges[i] == e && NoneJoins(edges[..i], e)
  }

  ghost predicate NoneJoins(edges: seq<GraphEdge>, e: GraphEdge) {
    forall d :: d in edges ==> !(d.source == e.source && d.target == e.target)
  }

  lemma FirstMore(edges: seq<GraphEdge>, last: GraphEdge, e: GraphEdge)
    ensures IsFirst(edges + [last], e) <==> IsFirst(edges, e) || (e == last && NoneJoins(edges, e))
  {
    hide NoneJoins;
    var more, n := edges + [last], |edges|;
    assert forall i :: 0 <= i <= n ==> more[..i] == edges[..i];
    assert edges[..n] == edges;
    if IsFirst(edges, e) {
      var i :| 0 <= i < n && edges[i] == e && NoneJoins(edges[..i], e);
      assert more[i] == e;
    }
    if e == last && NoneJoins(edges, e) {
      assert more[n] == e;
    }
  }

  lemma {:induction false} DedupedEdgesKeepFirst(edges: seq<GraphEdge>, e: GraphEdge)
    ensures e in DedupedEdges(edges, {}) <==> IsFirst(edges, e)
  {
    hide IsFirst;
    if edges == [] {
      NothingIsFirst(e);
    } else {
      var front, last := edges[..|edges| - 1], edges[|edges| - 1];
      assert edges == front + [last];
      DedupedEdgesKeepFirst(front, e);
      DedupedEdgesMore(front, last, {});
      FirstMore(front, last, e);
      hide DedupedEdges;
    }
  }

  /** Of the edges read off a chunk, a call precedes a use of the same symbol, so it is the one that is stored. */
  lemma CallIsFirst(w: Workspace, c: Chunk, all: seq<Chunk>, b: string)
    requires IsRead(c) && b in w.callTargets(c, all)
    ensures IsFirst(RegexEdges(w, [c], all), GraphEdge(c.id, b, "calls"))
  {
    hide IsRead, ShouldSkipEdges;
    IsReadIff(c);
    var calls, e := w.callTargets(c, all), GraphEdge(c.id, b, "calls");
    var edges := CallEdges(c, calls) + UseEdges(c, w.typeTargets(c, all));
    assert [c][..0] == [] && RegexEdges(w, [c], all) == [] + edges == edges;
    var i := FirstOf(calls, b);
    assert edges[..i] == CallEdges(c, calls)[..i];
    assert edges[i] == e && NoneJoins(edges[..i], e);
  }

  lemma {:induction false} FirstOf(xs: seq<string>, x: string) returns (i: nat)
    requires x in xs
    ensures i < |xs| && xs[i] == x && x !in xs[..i]
  {
    if xs[0] == x {
      i := 0;
    } else {
      i := FirstOf(xs[1..], x);
      assert xs[..i + 1] == [xs[0]] + xs[1..][..i];
      i := i + 1;
    }
  }

  /** What is read off the chunks precedes what the extractors declare. */
  lemma ReadOffIsFirst(w: Workspace, files: seq<string>, all: seq<Chunk>, e: GraphEdge)
    requires IsFirst(RegexEdges(w, Added(w, files), all), e)
    ensures IsFirst(NewEdges(w, files, all), e)
  {
    hide NoneJoins, RegexEdges, KnownTargets, Added, AddedSqlEdges;
    var edges := RegexEdges(w, Added(w, files), all);
    var i :| 0 <= i < |edges| && edges[i] == e && NoneJoins(edges[..i], e);
    assert NewEdges(w, files, all)[..i] == edges[..i] && NewEdges(w, files, all)[i] == e;
  }

  lemma NothingIsFirst(e: GraphEdge)
    ensures !IsFirst([], e)
  {}

  /** After an update the store holds an old edge unless a given file defines its source, either end is gone or a new
      edge joins the same symbols; and of the new edges the first of each pair. */
  lemma StoredEdgesIff(w: Workspace, files: seq<string>, s: Snapshot, commit: string, hash: Hash, e: GraphEdge)
    ensures var d := DeltaOf(w, files, s);
      e in NextSnapshot(d, s, commit, hash).edges <==>
        || IsFirst(d.edges, e)
        || (&& e in s.edges && NoneJoins(d.edges, e)
            && (forall path, c :: path in files && c in w.Chunks(path) ==> c.id != e.source)
            && !IsGone(w, files, s, e.source) && !IsGone(w, files, s, e.target))
  {
    hide NewEdges, Untouched, Added, Removed, GoneIds, Deduped, Outside, EdgesOutside, DedupedEdges, StaleEdges,
         IsFirst, IsGone, EligibleIds, Ids;
    var d := DeltaOf(w, files, s);
    DedupedEdgesKeepFirst(d.edges, e);
    StoredEdges(d, s, e);
    GoneIff(w, files, s, e.source);
    GoneIff(w, files, s, e.target);
    ReextractedIff(w, files, e.source);
    PairIff(d.edges, e);
  }

  lemma PairIff(edges: seq<GraphEdge>, e: GraphEdge)
    ensures (e.source, e.target) in EdgePairs(edges) <==> !NoneJoins(edges, e)
  {}

  lemma ReextractedIff(w: Workspace, files: seq<string>, id: string)
    ensures id in Ids(Added(w, files)) <==> exists path, c :: path in files && c in w.Chunks(path) && c.id == id
  {
    hide Added;
    forall c
      ensures c in Added(w, files) <==> exists path :: path in files && c in w.Chunks(path)
    {
      AddedChunks(w, files, c);
    }
  }

  /** What a full index stores is in agreement with the graph it makes. */
  lemma FullIndexIsInStep(w: Workspace, files: seq<string>, linked: seq<Chunk> -> seq<GraphEdge>, commit: string,
                          hash: Hash, e: GraphEdge)
    ensures var s := IndexedSnapshot(w, files, linked, commit, hash);
      && s.chunks == Added(w, files) && s.commit == commit && InStep(Service(s, Rebuilt(s)), hash)
      && (e in s.edges <==>
            || (exists c :: c in s.chunks && IsRead(c) && ReadOff(w, c, s.chunks, e))
            || ((e in linked(s.chunks) || exists path :: path in files && e in w.SqlEdges(path))
                && exists d :: d in s.chunks && d.id == e.target))
  {
    hide RegexEdges, KnownTargets, Added, AddedSqlEdges, IsRead, ReadOff, Rebuilt, EligibleIds;
    var all := Added(w, files);
    RegexEdgesIff(w, all, all, e);
    KnownTargetsIff(AddedSqlEdges(w, files) + linked(all), Ids(all), e);
    AddedSqlIff(w, files, e);
  }

  // ---- The commit ----

  /** The commit of the last step that sets one, `commit` without any. */
  function LastCommit(steps: seq<Step>, commit: string): string {
    if steps == [] then commit
    else if steps[|steps| - 1].Index? || steps[|steps| - 1].commit != "" then steps[|steps| - 1].commit
    else LastCommit(steps[..|steps| - 1], commit)
  }

  /** Over any run, clean or not, the stored commit is the one of the last step that had one; a full index always
      has. */
  lemma {:induction false} CommitOverRuns(x: Service, steps: seq<Step>, hash: Hash)
    ensures Run(x, steps, hash).snapshot.commit == LastCommit(steps, x.snapshot.commit)
  {
    hide After;
    if steps != [] {
      var n := |steps| - 1;
      CommitOverRuns(x, steps[..n], hash);
      CommitStep(Run(x, steps[..n], hash), steps[n], hash);
    }
  }

  lemma CommitStep(x: Service, step: Step, hash: Hash)
    ensures After(x, step, hash).snapshot.commit ==
            if step.Index? || step.commit != "" then step.commit else x.snapshot.commit
  {
    hide DeltaOf, NextGraph, EligibleIds, Rebuilt, Outside, Deduped, EdgesOutside, DedupedEdges;
  }
}
