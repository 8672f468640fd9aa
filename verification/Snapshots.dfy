/** The stored snapshot of the code base, and which of its chunks count as graph symbols. */
module Snapshots {
  /** One extracted symbol, or a synthetic enrichment chunk. */
  datatype Chunk = Chunk(id: string, path: string, kind: string, content: string, startLine: nat)

  datatype GraphEdge = GraphEdge(source: string, target: string, relation: string)

  datatype Snapshot = Snapshot(chunks: seq<Chunk>, edges: seq<GraphEdge>, commit: string, fingerprint: string)

  const GRAPH_SKIP_KINDS := {"file_summary", "module_exports", "mod"}
  const NAME_SKIP := {"Relation", "fn", "let", "match", "if"}

  /** The last part of `id.split("::")`; `part` is what has been read of the current one. */
  function LastPart(id: string, part: string): string {
    if |id| < 2 then part + id
    else if id[0] == ':' && id[1] == ':' then LastPart(id[2..], "")
    else LastPart(id[1..], part + [id[0]])
  }

  function ShortName(id: string): string {
    LastPart(id, "")
  }

  /** Python's whitespace. */
  predicate IsSpace(c: char) {
    || '\t' <= c <= '\r' || '\U{1c}' <= c <= ' ' || c == '\U{85}' || c == '\U{a0}' || c == '\U{1680}'
    || '\U{2000}' <= c <= '\U{200a}' || c == '\U{2028}' || c == '\U{2029}' || c == '\U{202f}' || c == '\U{205f}'
    || c == '\U{3000}'
  }

  function Strip(s: string): string {
    if s == [] then s
    else if IsSpace(s[0]) then Strip(s[1..])
    else if IsSpace(s[|s| - 1]) then Strip(s[..|s| - 1])
    else s
  }

  predicate IsConstructor(c: Chunk) {
    ShortName(c.id) == "new" && c.kind == "fn"
  }

  /** `is_graph_eligible` of a chunk. */
  predicate IsGraphEligible(c: Chunk) {
    && c.kind !in GRAPH_SKIP_KINDS
    && ShortName(c.id) !in NAME_SKIP
    && !(IsConstructor(c) && 0 < |Strip(c.content)| < 50)
  }

  /** `is_graph_eligible` of a plain symbol id, which has neither kind nor content. */
  predicate IsIdEligible(id: string) {
    ShortName(id) !in NAME_SKIP
  }

  /** `_should_skip_for_graph` */
  predicate ShouldSkip(c: Chunk) {
    !IsGraphEligible(c) || (IsConstructor(c) && |Strip(c.content)| < 50)
  }

  function Ids(chunks: seq<Chunk>): set<string> {
    set c | c in chunks :: c.id
  }

  /** What the fingerprint counts. */
  function EligibleIds(chunks: seq<Chunk>): set<string> {
    set c | c in chunks && IsGraphEligible(c) :: c.id
  }

  /** What the graph gets. */
  function GraphIds(chunks: seq<Chunk>): set<string> {
    set c | c in chunks && !ShouldSkip(c) :: c.id
  }

  /** `compute_symbol_set_hash` of plain ids: only the name test applies. */
  function FilteredIds(ids: set<string>): set<string> {
    set id | id in ids && IsIdEligible(id)
  }

  /** A `new` function without content: the one kind of chunk on which the two tests differ. */
  predicate IsBlankConstructor(c: Chunk) {
    IsConstructor(c) && Strip(c.content) == []
  }

  lemma TestsDiffer(c: Chunk)
    ensures IsGraphEligible(c) && ShouldSkip(c) <==> IsBlankConstructor(c)
  {
    hide LastPart, Strip;
    if IsConstructor(c) {
      assert "new" !in NAME_SKIP && "fn" !in GRAPH_SKIP_KINDS;
    }
  }

  /** The snapshot's fingerprint universe is the graph's exactly when every blank constructor's id also belongs to a
      chunk the graph takes. */
  lemma UniversesAgreeIff(chunks: seq<Chunk>)
    ensures EligibleIds(chunks) == FilteredIds(GraphIds(chunks))
       <==> forall c :: c in chunks && IsBlankConstructor(c) ==> c.id in GraphIds(chunks)
  {
    hide ShortName, Strip, IsBlankConstructor;
    forall c: Chunk
      ensures IsGraphEligible(c) && ShouldSkip(c) <==> IsBlankConstructor(c)
    {
      TestsDiffer(c);
    }
    if forall c :: c in chunks && IsBlankConstructor(c) ==> c.id in GraphIds(chunks) {
      forall id | id in EligibleIds(chunks)
        ensures id in FilteredIds(GraphIds(chunks))
      {
        var c :| c in chunks && IsGraphEligible(c) && c.id == id;
        assert !ShouldSkip(c) || IsBlankConstructor(c);
      }
      assert forall c :: c in chunks && !ShouldSkip(c) ==> c.id in EligibleIds(chunks);
    } else {
      var c :| c in chunks && IsBlankConstructor(c) && c.id !in GraphIds(chunks);
      assert c.id in EligibleIds(chunks);
    }
  }

  // ---- Parts of a snapshot ----

  /** The chunks of files other than `paths`. */
  function Untouched(chunks: seq<Chunk>, paths: set<string>): seq<Chunk> {
    if chunks == [] then []
    else if chunks[0].path in paths then Untouched(chunks[1..], paths)
    else [chunks[0]] + Untouched(chunks[1..], paths)
  }

  lemma {:induction false} UntouchedHas(chunks: seq<Chunk>, paths: set<string>)
    ensures forall c :: c in Untouched(chunks, paths) <==> c in chunks && c.path !in paths
  {
    if chunks != [] {
      UntouchedHas(chunks[1..], paths);
      assert chunks == [chunks[0]] + chunks[1..];
    }
  }

  /** The chunks whose (id, path) is not in `pairs`. */
  function Outside(chunks: seq<Chunk>, pairs: set<(string, string)>): seq<Chunk> {
    if chunks == [] then []
    else if (chunks[0].id, chunks[0].path) in pairs then Outside(chunks[1..], pairs)
    else [chunks[0]] + Outside(chunks[1..], pairs)
  }

  function Pairs(chunks: seq<Chunk>): set<(string, string)> {
    set c | c in chunks :: (c.id, c.path)
  }

  function Key(c: Chunk): (string, string, nat) {
    (c.id, c.path, c.startLine)
  }

  /** The first chunk with each key, those seen before excepted. */
  function Deduped(chunks: seq<Chunk>, seen: set<(string, string, nat)>): (r: seq<Chunk>)
    ensures forall c :: c in r ==> c in chunks
  {
    if chunks == [] then []
    else if Key(chunks[0]) in seen then Deduped(chunks[1..], seen)
    else [chunks[0]] + Deduped(chunks[1..], seen + {Key(chunks[0])})
  }

  /** A chunk stays exactly when it comes first among those with its key. */
  lemma {:induction false} DedupedKeepsFirst(chunks: seq<Chunk>, seen: set<(string, string, nat)>, c: Chunk)
    ensures c in Deduped(chunks, seen) <==>
            Key(c) !in seen && exists i :: 0 <= i < |chunks| && chunks[i] == c && NoneBefore(chunks, i, Key(c))
  {
    if chunks != [] {
      var rest, key := chunks[1..], Key(chunks[0]);
      DedupedKeepsFirst(rest, if key in seen then seen else seen + {key}, c);
      if Key(c) !in seen && key != Key(c) {
        forall i | 0 <= i < |rest|
          ensures NoneBefore(chunks, i + 1, Key(c)) <==> NoneBefore(rest, i, Key(c))
        {
          LaterBefore(chunks, i, Key(c));
        }
        if i :| 0 <= i < |chunks| && chunks[i] == c && NoneBefore(chunks, i, Key(c)) {
          assert rest[i - 1] == c && NoneBefore(rest, i - 1, Key(c));
        }
        if i :| 0 <= i < |rest| && rest[i] == c && NoneBefore(rest, i, Key(c)) {
          assert chunks[i + 1] == c && NoneBefore(chunks, i + 1, Key(c));
        }
      } else if Key(c) !in seen {
        assert NoneBefore(chunks, 0, key);
      }
    }
  }

  ghost predicate NoneBefore(chunks: seq<Chunk>, i: nat, key: (string, string, nat))
    requires i <= |chunks|
  {
    forall j :: 0 <= j < i ==> Key(chunks[j]) != key
  }

  lemma LaterBefore(chunks: seq<Chunk>, i: nat, key: (string, string, nat))
    requires i < |chunks| && Key(chunks[0]) != key
    ensures NoneBefore(chunks, i + 1, key) <==> NoneBefore(chunks[1..], i, key)
  {
    forall j | 0 <= j < i + 1
      ensures j == 0 || chunks[j] == chunks[1..][j - 1]
    {}
    if NoneBefore(chunks, i + 1, key) {
      forall j | 0 <= j < i
        ensures Key(chunks[1..][j]) != key
      {
        assert chunks[j + 1] == chunks[1..][j];
      }
    }
  }

  function EdgesOutside(edges: seq<GraphEdge>, keys: set<(string, string)>): (r: seq<GraphEdge>)
    ensures forall e :: e in r <==> e in edges && (e.source, e.target) !in keys
  {
    if edges == [] then []
    else (if (edges[0].source, edges[0].target) in keys then [] else [edges[0]]) + EdgesOutside(edges[1..], keys)
  }

  function EdgePairs(edges: seq<GraphEdge>): set<(string, string)> {
    set e | e in edges :: (e.source, e.target)
  }

  /** The first edge between each pair of symbols, whatever its relation. */
  function DedupedEdges(edges: seq<GraphEdge>, seen: set<(string, string)>): (r: seq<GraphEdge>)
    ensures forall e :: e in r ==> e in edges && (e.source, e.target) !in seen
  {
    if edges == [] then []
    else if (edges[0].source, edges[0].target) in seen then DedupedEdges(edges[1..], seen)
    else [edges[0]] + DedupedEdges(edges[1..], seen + {(edges[0].source, edges[0].target)})
  }

  /** Whether every two edges between the same symbols are the same edge. */
  ghost predicate OneRelation(edges: seq<GraphEdge>) {
    forall d, e :: d in edges && e in edges && d.source == e.source && d.target == e.target ==> d == e
  }

  /** With one relation to a pair the store loses no edge. */
  lemma {:induction false} DedupedEdgesKeepAll(edges: seq<GraphEdge>, seen: set<(string, string)>, e: GraphEdge)
    requires OneRelation(edges)
    ensures e in DedupedEdges(edges, seen) <==> e in edges && (e.source, e.target) !in seen
  {
    if edges != [] {
      var d := edges[0];
      assert OneRelation(edges[1..]) by {
        assert forall x :: x in edges[1..] ==> x in edges;
      }
      assert edges == [d] + edges[1..];
      DedupedEdgesKeepAll(edges[1..], if (d.source, d.target) in seen then seen else seen + {(d.source, d.target)}, e);
      if e in edges && e.source == d.source && e.target == d.target {
        assert e == d;
      }
    }
  }

  /** With two relations it loses the later one. */
  lemma SecondRelationIsLost(calls: GraphEdge, uses: GraphEdge)
    requires calls.source == uses.source && calls.target == uses.target && calls != uses
    ensures uses !in DedupedEdges([calls, uses], {})
  {
    assert [calls, uses][1..] == [uses];
  }

  /** The snapshot after an incremental write. */
  function Updated(s: Snapshot, modified: seq<Chunk>, removed: set<(string, string)>, modifiedEdges: seq<GraphEdge>,
                   removedEdges: set<(string, string)>, commit: string, fingerprint: string): Snapshot {
    Snapshot(Outside(s.chunks, removed + Pairs(modified)) + Deduped(modified, {}),
             EdgesOutside(s.edges, removedEdges + EdgePairs(modifiedEdges)) + DedupedEdges(modifiedEdges, {}),
             if commit == "" then s.commit else commit,
             if fingerprint == "" then s.fingerprint else fingerprint)
  }
}
