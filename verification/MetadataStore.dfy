/** The in-memory repository of the snapshot. */
module MetadataStore {
  import opened Options
  import opened Snapshots

  class InMemoryIndexMetadataRepository {
    var snapshot: Option<Snapshot>

    constructor ()
      ensures snapshot == None
    {
      snapshot := None;
    }

    method Reset()
      modifies this
      ensures snapshot == None
    {
      snapshot := None;
    }

    method ReplaceSnapshot(s: Snapshot)
      modifies this
      ensures snapshot == Some(s)
    {
      snapshot := Some(s);
    }

    method LoadSnapshot() returns (s: Option<Snapshot>)
      ensures s == snapshot
    {
      s := snapshot;
    }

    static method UniqueChunks(chunks: seq<Chunk>) returns (unique: seq<Chunk>)
      ensures unique == Deduped(chunks, {})
    {
      unique := [];
      var seen := {};
      for i := 0 to |chunks|
        invariant unique + Deduped(chunks[i..], seen) == Deduped(chunks, {})
      {
        assert chunks[i..][1..] == chunks[i + 1..];
        var key := Key(chunks[i]);
        if key !in seen {
          assert unique + ([chunks[i]] + Deduped(chunks[i + 1..], seen + {key}))
              == (unique + [chunks[i]]) + Deduped(chunks[i + 1..], seen + {key});
          seen := seen + {key};
          unique := unique + [chunks[i]];
        }
      }
    }

    static method UniqueEdges(edges: seq<GraphEdge>) returns (unique: seq<GraphEdge>)
      ensures unique == DedupedEdges(edges, {})
    {
      unique := [];
      var seen := {};
      for i := 0 to |edges|
        invariant unique + DedupedEdges(edges[i..], seen) == DedupedEdges(edges, {})
      {
        assert edges[i..][1..] == edges[i + 1..];
        var key := (edges[i].source, edges[i].target);
        if key !in seen {
          assert unique + ([edges[i]] + DedupedEdges(edges[i + 1..], seen + {key}))
              == (unique + [edges[i]]) + DedupedEdges(edges[i + 1..], seen + {key});
          seen := seen + {key};
          unique := unique + [edges[i]];
        }
      }
    }

    /** Nothing happens without a snapshot; otherwise modified rows replace themselves and removed rows go. */
    method UpdateIncremental(modifiedChunks: seq<Chunk>, removedSymbols: set<(string, string)>,
                             modifiedEdges: seq<GraphEdge>, removedEdgeKeys: set<(string, string)>,
                             lastIndexedCommit: string, symbolSetHash: string)
      modifies this
      ensures snapshot == match old(snapshot)
        case None => None
        case Some(s) => Some(Updated(s, modifiedChunks, removedSymbols, modifiedEdges, removedEdgeKeys,
                                     lastIndexedCommit, symbolSetHash))
    {
      if snapshot.None? {
        return;
      }
      var s := snapshot.value;
      var uniqueChunks := UniqueChunks(modifiedChunks);
      var chunks := Outside(s.chunks, removedSymbols + Pairs(modifiedChunks)) + uniqueChunks;
      var uniqueEdges := UniqueEdges(modifiedEdges);
      var edges := EdgesOutside(s.edges, removedEdgeKeys + EdgePairs(modifiedEdges)) + uniqueEdges;
      snapshot := Some(s.(chunks := chunks, edges := edges));
      if lastIndexedCommit != "" || symbolSetHash != "" {
        snapshot := Some(snapshot.value.(
          commit := if lastIndexedCommit == "" then s.commit else lastIndexedCommit,
          fingerprint := if symbolSetHash == "" then s.fingerprint else symbolSetHash));
      }
    }
  }
}
